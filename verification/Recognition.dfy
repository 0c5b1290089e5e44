/** All recognised events of a window: cash-basis lines, reconciliations and POS tickets. */
module Recognition {
  import opened Common
  import opened Sorting
  import opened Events
  import CashBasis
  import Reconciliation

  /** A POS ticket. Payments and ticket carry local dates; amounts are cents. */
  datatype Ticket = Ticket(id: int, ticketDate: int, paymentDates: seq<int>, lines: seq<TicketLine>, methodKnown: bool)
  datatype TicketLine = TicketLine(categories: seq<Category>, amount: int)

  /** Everything the events are computed from. */
  datatype Books = Books(
    lines: seq<CashBasis.JournalLine>, origins: CashBasis.Origins,
    invoices: seq<Reconciliation.Invoice>, tickets: seq<Ticket>)

  function Latest(dates: seq<int>, best: int): (r: int)
    ensures r == best || r in dates
    ensures best <= r && forall d | d in dates :: d <= r
  {
    if dates == [] then best
    else
      assert dates == [dates[0]] + dates[1..];
      Latest(dates[1..], Max(best, dates[0]))
  }

  /** A ticket is recognised when its last payment completes the receipt, or when it was made if it has none. */
  function TicketDate(t: Ticket): int {
    if t.paymentDates == [] then t.ticketDate else Latest(t.paymentDates[1..], t.paymentDates[0])
  }

  /** Adds one amount to a category of an insertion-ordered dictionary. */
  function AddTo(totals: Totals, category: Category, amount: int): (r: Totals)
    ensures forall c :: TotalOf(r, c) == TotalOf(totals, c) + if c == category then amount else 0
    ensures forall t | t in r :: t.0 == category || t in totals
    ensures DistinctCategories(totals) ==> DistinctCategories(r)
  {
    if totals == [] then [(category, amount)]
    else if totals[0].0 == category then [(category, totals[0].1 + amount)] + totals[1..]
    else [totals[0]] + AddTo(totals[1..], category, amount)
  }

  function TotalOf(totals: Totals, category: Category): int {
    if totals == [] then 0
    else if totals[0].0 == category then totals[0].1
    else TotalOf(totals[1..], category)
  }

  function AddLine(totals: Totals, line: TicketLine, i: nat): (r: Totals)
    requires i <= |line.categories|
    ensures DistinctCategories(totals) ==> DistinctCategories(r)
    decreases |line.categories| - i
  {
    if i == |line.categories| then totals
    else AddLine(AddTo(totals, line.categories[i], line.amount), line, i + 1)
  }

  function TicketTotals(lines: seq<TicketLine>): (r: Totals)
    ensures DistinctCategories(r)
  {
    if lines == [] then [] else AddLine(TicketTotals(lines[..|lines| - 1]), lines[|lines| - 1], 0)
  }

  /** What the ticket's lines carry of one category. */
  function CategoryAmount(lines: seq<TicketLine>, category: Category): int {
    if lines == [] then 0
    else CategoryAmount(lines[..|lines| - 1], category)
         + if category in lines[|lines| - 1].categories then lines[|lines| - 1].amount else 0
  }

  lemma {:induction false} AddLineTotal(totals: Totals, line: TicketLine, i: nat, category: Category)
    requires i <= |line.categories|
    requires forall j, k | 0 <= j < k < |line.categories| :: line.categories[j] != line.categories[k]
    ensures TotalOf(AddLine(totals, line, i), category)
         == TotalOf(totals, category) + if category in line.categories[i..] then line.amount else 0
    decreases |line.categories| - i
  {
    if i < |line.categories| {
      assert line.categories[i..] == [line.categories[i]] + line.categories[i + 1..];
      AddLineTotal(AddTo(totals, line.categories[i], line.amount), line, i + 1, category);
    }
  }

  /** The accumulated totals are the category sums of the lines. */
  lemma {:induction false} TicketTotalsAre(lines: seq<TicketLine>, category: Category)
    requires forall l, j, k | l in lines && 0 <= j < k < |l.categories| :: l.categories[j] != l.categories[k]
    ensures TotalOf(TicketTotals(lines), category) == CategoryAmount(lines, category)
  {
    if lines != [] {
      var front, last := lines[..|lines| - 1], lines[|lines| - 1];
      assert forall l | l in front :: l in lines;
      assert last in lines && last.categories[0..] == last.categories;
      TicketTotalsAre(front, category);
      AddLineTotal(TicketTotals(front), last, 0, category);
    }
  }

  function TicketEvents(t: Ticket): (r: seq<Event>)
    ensures forall e | e in r :: e.date == TicketDate(t) && e.key == PosKey(t.id, e.category)
    ensures NoDuplicateKeys(r)
  {
    var totals := TicketTotals(t.lines);
    seq(|totals|, i requires 0 <= i < |totals| =>
      Event(PosKey(t.id, totals[i].0), TicketDate(t), totals[i].0, totals[i].1, t.methodKnown))
  }

  function PosEvents(tickets: seq<Ticket>, dateFrom: int, dateTo: int): seq<Event> {
    if tickets == [] then []
    else (if dateFrom <= TicketDate(tickets[0]) <= dateTo then TicketEvents(tickets[0]) else [])
         + PosEvents(tickets[1..], dateFrom, dateTo)
  }

  function Normalised(events: seq<Event>, books: Books, dateTo: int): (r: seq<Event>)
    ensures |r| == |events|
    ensures forall i | 0 <= i < |r| ::
      r[i] == events[i].(amount := CashBasis.Corrected(events, i, books.lines, books.origins, dateTo))
  {
    seq(|events|, i requires 0 <= i < |events| =>
      events[i].(amount := CashBasis.Corrected(events, i, books.lines, books.origins, dateTo)))
  }

  function RecognitionEvents(books: Books, dateFrom: int, dateTo: int): seq<Event> {
    Normalised(CashBasis.CabaEvents(books.lines, dateFrom, dateTo), books, dateTo)
    + Reconciliation.ReconciliationEvents(books.invoices, dateFrom, dateTo)
    + PosEvents(books.tickets, dateFrom, dateTo)
  }

  // ------------------------------------------------------------ what tickets recognise

  lemma TicketDateIs(t: Ticket)
    ensures t.paymentDates == [] ==> TicketDate(t) == t.ticketDate
    ensures t.paymentDates != [] ==>
      TicketDate(t) in t.paymentDates && forall d | d in t.paymentDates :: d <= TicketDate(t)
  {
    if t.paymentDates != [] {
      assert t.paymentDates == [t.paymentDates[0]] + t.paymentDates[1..];
    }
  }

  /** A line names a category once; the source reads them as a set. */
  ghost predicate CategoriesOnce(tickets: seq<Ticket>) {
    forall t, l, j, k | t in tickets && l in t.lines && 0 <= j < k < |l.categories| ::
        l.categories[j] != l.categories[k]
  }

  /** What the tickets completed in the window carry of a category. */
  function Taken(tickets: seq<Ticket>, dateFrom: int, dateTo: int, category: Category): int {
    if tickets == [] then 0
    else
      (if dateFrom <= TicketDate(tickets[0]) <= dateTo then CategoryAmount(tickets[0].lines, category) else 0)
      + Taken(tickets[1..], dateFrom, dateTo, category)
  }

  lemma {:induction false} AmountOfTotals(events: seq<Event>, totals: Totals, category: Category)
    requires |events| == |totals| && DistinctCategories(totals)
    requires forall i | 0 <= i < |totals| :: events[i].category == totals[i].0 && events[i].amount == totals[i].1
    ensures AmountIn(events, category) == TotalOf(totals, category)
  {
    if totals != [] {
      AmountOfTotals(events[1..], totals[1..], category);
      if totals[0].0 == category {
        forall i | 0 <= i < |totals[1..]| ensures totals[1..][i].0 != category {
          assert totals[i + 1].0 != totals[0].0;
        }
        NoTotal(totals[1..], category);
      }
    }
  }

  lemma {:induction false} NoTotal(totals: Totals, category: Category)
    requires forall i | 0 <= i < |totals| :: totals[i].0 != category
    ensures TotalOf(totals, category) == 0
  {
    if totals != [] {
      NoTotal(totals[1..], category);
    }
  }

  /** A ticket's events carry its category sums. */
  lemma TicketAmounts(t: Ticket, category: Category)
    requires CategoriesOnce([t])
    ensures AmountIn(TicketEvents(t), category) == CategoryAmount(t.lines, category)
  {
    assert t in [t];
    AmountOfTotals(TicketEvents(t), TicketTotals(t.lines), category);
    TicketTotalsAre(t.lines, category);
  }

  /** The events of a window carry what the tickets completed in it carry, category by category. */
  lemma {:induction false} PosAmounts(tickets: seq<Ticket>, dateFrom: int, dateTo: int, category: Category)
    requires CategoriesOnce(tickets)
    ensures AmountIn(PosEvents(tickets, dateFrom, dateTo), category) == Taken(tickets, dateFrom, dateTo, category)
  {
    hide TicketEvents, TicketDate, CategoryAmount;
    if tickets != [] {
      var t := tickets[0];
      assert t in tickets && forall x | x in tickets[1..] :: x in tickets;
      PosAmounts(tickets[1..], dateFrom, dateTo, category);
      TicketAmounts(t, category);
      AmountInAppend(if dateFrom <= TicketDate(t) <= dateTo then TicketEvents(t) else [],
                     PosEvents(tickets[1..], dateFrom, dateTo), category);
    }
  }

  /** The tickets completed in the window, each with its totals per category. */
  method PosEventsLoop(tickets: seq<Ticket>, dateFrom: int, dateTo: int) returns (events: seq<Event>)
    ensures events == PosEvents(tickets, dateFrom, dateTo)
  {
    hide TicketTotals;
    events := [];
    for i := 0 to |tickets|
      invariant events == PosEvents(tickets[..i], dateFrom, dateTo)
    {
      var t := tickets[i];
      PosAppend(tickets, i, dateFrom, dateTo);
      var date := PosRecognitionDate(t);
      if dateFrom <= date <= dateTo {
        var totals := AddUpTicket(t);
        var own: seq<Event> := [];
        for k := 0 to |totals|
          invariant own == TicketEvents(t)[..k]
        {
          own := own + [Event(PosKey(t.id, totals[k].0), date, totals[k].0, totals[k].1, t.methodKnown)];
        }
        assert TicketEvents(t)[..|totals|] == TicketEvents(t);
        events := events + own;
      }
    }
    assert tickets[..|tickets|] == tickets;
  }

  method PosRecognitionDate(t: Ticket) returns (date: int)
    ensures date == TicketDate(t)
  {
    TicketDateIs(t);
    if t.paymentDates == [] {
      return t.ticketDate;
    }
    date := t.paymentDates[0];
    for i := 1 to |t.paymentDates|
      invariant date in t.paymentDates && forall d | d in t.paymentDates[..i] :: d <= date
    {
      assert t.paymentDates[..i + 1] == t.paymentDates[..i] + [t.paymentDates[i]];
      if t.paymentDates[i] > date {
        date := t.paymentDates[i];
      }
    }
    assert t.paymentDates[..|t.paymentDates|] == t.paymentDates;
  }

  method AddUpTicket(t: Ticket) returns (totals: Totals)
    ensures totals == TicketTotals(t.lines)
  {
    totals := [];
    for i := 0 to |t.lines|
      invariant totals == TicketTotals(t.lines[..i])
    {
      var line := t.lines[i];
      assert t.lines[..i + 1][..i] == t.lines[..i];
      ghost var start := totals;
      for k := 0 to |line.categories|
        invariant AddLine(totals, line, k) == AddLine(start, line, 0)
      {
        totals := AddTo(totals, line.categories[k], line.amount);
      }
    }
    assert t.lines[..|t.lines|] == t.lines;
  }

  lemma {:induction false} PosAppend(tickets: seq<Ticket>, i: nat, dateFrom: int, dateTo: int)
    requires i < |tickets|
    ensures PosEvents(tickets[..i + 1], dateFrom, dateTo) == PosEvents(tickets[..i], dateFrom, dateTo)
      + (if dateFrom <= TicketDate(tickets[i]) <= dateTo then TicketEvents(tickets[i]) else [])
  {
    hide TicketEvents, TicketDate;
    if i > 0 {
      PosAppend(tickets[1..], i - 1, dateFrom, dateTo);
      assert tickets[..i + 1][1..] == tickets[1..][..i] && tickets[..i][1..] == tickets[1..][..i - 1];
    } else {
      assert tickets[..1][1..] == [] && tickets[..0] == [];
    }
  }

  // ------------------------------------------------------------ every key is generated once

  ghost predicate DistinctTickets(tickets: seq<Ticket>) {
    forall i, j | 0 <= i < j < |tickets| :: tickets[i].id != tickets[j].id
  }

  ghost predicate DistinctInvoices(invoices: seq<Reconciliation.Invoice>) {
    && (forall i, j | 0 <= i < j < |invoices| :: invoices[i].id != invoices[j].id)
    && (forall i | i in invoices :: DistinctCategories(i.totals) && DistinctPartials(i.partials))
  }

  ghost predicate DistinctPartials(partials: seq<Reconciliation.Partial>) {
    forall i, j | 0 <= i < j < |partials| :: partials[i].id != partials[j].id
  }

  ghost predicate DistinctJournal(lines: seq<CashBasis.JournalLine>) {
    && CashBasis.DistinctLines(lines)
    && forall l, i, j | l in lines && 0 <= i < j < |l.categories| :: l.categories[i] != l.categories[j]
  }

  /** Record ids are unique, as the database keeps them. */
  ghost predicate WellFormed(books: Books) {
    DistinctJournal(books.lines) && DistinctInvoices(books.invoices) && DistinctTickets(books.tickets)
  }

  lemma NoDuplicatesInSum(a: seq<Event>, b: seq<Event>)
    requires NoDuplicateKeys(a) && NoDuplicateKeys(b)
    requires forall x, y | x in a && y in b :: x.key != y.key
    ensures NoDuplicateKeys(a + b)
  {
    forall i, j | 0 <= i < j < |a + b| ensures (a + b)[i].key != (a + b)[j].key {
      if i < |a| <= j {
        assert a[i] in a && b[j - |a|] in b;
      }
    }
  }

  lemma {:induction false} CabaKeysDistinct(lines: seq<CashBasis.JournalLine>, dateFrom: int, dateTo: int)
    requires DistinctJournal(lines)
    ensures var r := CashBasis.CabaEvents(lines, dateFrom, dateTo);
      NoDuplicateKeys(r)
      && forall e | e in r :: e.key.CabaKey? && dateFrom <= e.date <= dateTo && exists l | l in lines ::
         l.id == e.key.lineId
  {
    if lines != [] {
      var l := lines[0];
      assert forall x | x in lines[1..] :: x in lines && x.id != l.id;
      CabaKeysDistinct(lines[1..], dateFrom, dateTo);
      var head := if CashBasis.InWindow(l, dateFrom, dateTo) then CashBasis.EventsOf(l, l.categories) else [];
      assert l in lines;
      forall i, j | 0 <= i < j < |head| ensures head[i].key != head[j].key {
        assert l.categories[i] != l.categories[j];
      }
      NoDuplicatesInSum(head, CashBasis.CabaEvents(lines[1..], dateFrom, dateTo));
    }
  }

  lemma {:induction false} PosKeysDistinct(tickets: seq<Ticket>, dateFrom: int, dateTo: int)
    requires DistinctTickets(tickets)
    ensures var r := PosEvents(tickets, dateFrom, dateTo);
      NoDuplicateKeys(r)
      && forall e | e in r :: e.key.PosKey? && dateFrom <= e.date <= dateTo && exists t | t in tickets ::
         t.id == e.key.orderId
  {
    if tickets != [] {
      assert forall x | x in tickets[1..] :: x in tickets && x.id != tickets[0].id;
      assert tickets[0] in tickets;
      PosKeysDistinct(tickets[1..], dateFrom, dateTo);
      var head := if dateFrom <= TicketDate(tickets[0]) <= dateTo then TicketEvents(tickets[0]) else [];
      NoDuplicatesInSum(head, PosEvents(tickets[1..], dateFrom, dateTo));
    }
  }

  /** Events of payment `k` carry its id and date and one category each. */
  lemma {:induction false} EventsAtFacts(invoice: Reconciliation.Invoice, totals: Totals,
                                         s: seq<Reconciliation.Partial>, k: nat)
    requires k < |s| && invoice.termsBalance != 0 && DistinctCategories(totals)
    ensures var r := Reconciliation.EventsAt(invoice, totals, s, k);
      NoDuplicateKeys(r)
      && forall e | e in r :: e.date == s[k].date && e.key == ReconciliationKey(s[k].id, invoice.id, e.category)
                              && exists t | t in totals :: t.0 == e.category
  {
    if totals != [] {
      EventsAtFacts(invoice, totals[1..], s, k);
      var head := [Reconciliation.EventOf(invoice, totals[0], s, k)];
      assert totals[0] in totals;
      NoDuplicatesInSum(head, Reconciliation.EventsAt(invoice, totals[1..], s, k));
    }
  }

  lemma {:induction false} EventsBetweenFacts(invoice: Reconciliation.Invoice, s: seq<Reconciliation.Partial>,
                                              k: nat, n: nat, dateFrom: int)
    requires k <= n <= |s| && invoice.termsBalance != 0 && DistinctCategories(invoice.totals) && DistinctPartials(s)
    ensures var r := Reconciliation.EventsBetween(invoice, s, k, n, dateFrom);
      NoDuplicateKeys(r)
      && forall e | e in r :: e.key.ReconciliationKey? && e.key.invoiceId == invoice.id && e.key.category == e.category
                              && dateFrom <= e.date
                              && exists i | k <= i < n :: s[i].id == e.key.partialId && s[i].date == e.date
    decreases n - k
  {
    if k < n {
      EventsBetweenFacts(invoice, s, k + 1, n, dateFrom);
      Reconciliation.FilterKeepsDistinct(invoice.totals, Reconciliation.NotCashBasis(invoice));
      EventsAtFacts(invoice, Reconciliation.Recognised(invoice), s, k);
      var head := if dateFrom <= s[k].date
          then Reconciliation.EventsAt(invoice, Reconciliation.Recognised(invoice), s, k) else [];
      hide Reconciliation.EventsAt, Reconciliation.Recognised;
      NoDuplicatesInSum(head, Reconciliation.EventsBetween(invoice, s, k + 1, n, dateFrom));
    }
  }

  lemma {:induction false} InsertKeepsPartials(x: Reconciliation.Partial, s: seq<Reconciliation.Partial>)
    requires DistinctPartials(s) && forall y | y in s :: y.id != x.id
    ensures DistinctPartials(Insert(x, s, Reconciliation.PartialKey))
  {
    if s != [] && KeyLess(Reconciliation.PartialKey(s[0]), Reconciliation.PartialKey(x)) {
      InsertKeepsPartials(x, s[1..]);
      var t := Insert(x, s[1..], Reconciliation.PartialKey);
      forall j | 0 <= j < |t| ensures t[j].id != s[0].id {
        assert t[j] in multiset(t);
        assert t[j] == x || t[j] in s[1..];
      }
    }
  }

  lemma {:induction false} ThroughKeepsPartials(partials: seq<Reconciliation.Partial>, dateTo: int)
    requires DistinctPartials(partials)
    ensures DistinctPartials(Reconciliation.Through(partials, dateTo))
    ensures forall p | p in Reconciliation.Through(partials, dateTo) :: p in partials && p.date <= dateTo
  {
    var f := Filter(partials, Reconciliation.DatedThrough(dateTo));
    SortByMembers(f, Reconciliation.PartialKey);
    if partials != [] {
      ThroughKeepsPartials(partials[1..], dateTo);
      if partials[0].date <= dateTo {
        assert f[1..] == Filter(partials[1..], Reconciliation.DatedThrough(dateTo));
        var rest := Reconciliation.Through(partials[1..], dateTo);
        forall y | y in rest ensures y.id != partials[0].id {
          assert y in partials[1..];
        }
        InsertKeepsPartials(partials[0], rest);
      } else {
        assert f == Filter(partials[1..], Reconciliation.DatedThrough(dateTo));
      }
    }
  }

  lemma InvoiceEventFacts(invoice: Reconciliation.Invoice, dateFrom: int, dateTo: int)
    requires DistinctCategories(invoice.totals) && DistinctPartials(invoice.partials)
    ensures var r := Reconciliation.InvoiceEvents(invoice, dateFrom, dateTo);
      NoDuplicateKeys(r)
      && forall e | e in r :: e.key.ReconciliationKey? && e.key.invoiceId == invoice.id && e.key.category == e.category
                              && dateFrom <= e.date <= dateTo && exists p | p in invoice.partials :: p.date == e.date
  {
    if invoice.termsBalance != 0 {
      var s := Reconciliation.Through(invoice.partials, dateTo);
      ThroughKeepsPartials(invoice.partials, dateTo);
      EventsBetweenFacts(invoice, s, 0, |s|, dateFrom);
    }
  }

  lemma {:induction false} ReconciliationKeysDistinct(invoices: seq<Reconciliation.Invoice>, dateFrom: int, dateTo: int)
    requires DistinctInvoices(invoices)
    ensures var r := Reconciliation.ReconciliationEvents(invoices, dateFrom, dateTo);
      NoDuplicateKeys(r)
      && forall e | e in r :: e.key.ReconciliationKey? && dateFrom <= e.date <= dateTo
                              && exists i | i in invoices :: i.id == e.key.invoiceId
  {
    if invoices != [] {
      assert forall x | x in invoices[1..] :: x in invoices && x.id != invoices[0].id;
      assert invoices[0] in invoices;
      InvoiceEventFacts(invoices[0], dateFrom, dateTo);
      ReconciliationKeysDistinct(invoices[1..], dateFrom, dateTo);
      NoDuplicatesInSum(Reconciliation.InvoiceEvents(invoices[0], dateFrom, dateTo),
                        Reconciliation.ReconciliationEvents(invoices[1..], dateFrom, dateTo));
    }
  }

  /** No two generated events share a key, and every event lies in the window asked for. */
  lemma GeneratedKeysAreDistinct(books: Books, dateFrom: int, dateTo: int)
    requires WellFormed(books)
    ensures NoDuplicateKeys(RecognitionEvents(books, dateFrom, dateTo))
    ensures forall e | e in RecognitionEvents(books, dateFrom, dateTo) :: dateFrom <= e.date <= dateTo
  {
    CabaKeysDistinct(books.lines, dateFrom, dateTo);
    ReconciliationKeysDistinct(books.invoices, dateFrom, dateTo);
    PosKeysDistinct(books.tickets, dateFrom, dateTo);
    var caba := CashBasis.CabaEvents(books.lines, dateFrom, dateTo);
    var normal := Normalised(caba, books, dateTo);
    forall e | e in normal ensures e.key.CabaKey? && dateFrom <= e.date <= dateTo {
      var i :| 0 <= i < |normal| && normal[i] == e;
      assert caba[i] in caba;
    }
    var reconciled := Reconciliation.ReconciliationEvents(books.invoices, dateFrom, dateTo);
    NoDuplicatesInSum(normal, reconciled);
    NoDuplicatesInSum(normal + reconciled, PosEvents(books.tickets, dateFrom, dateTo));
  }

  method RecognitionEventsLoop(books: Books, dateFrom: int, dateTo: int) returns (events: seq<Event>)
    requires WellFormed(books)
    ensures events == RecognitionEvents(books, dateFrom, dateTo)
  {
    CabaKeysDistinct(books.lines, dateFrom, dateTo);
    var caba := CashBasis.CabaEvents(books.lines, dateFrom, dateTo);
    assert CashBasis.NoTies(caba) by {
      forall i, j | 0 <= i < j < |caba| && CashBasis.SameGroup(caba[i].key, caba[j].key)
        ensures caba[i].key.lineId != caba[j].key.lineId
      {
        assert caba[i].key != caba[j].key;
      }
    }
    var normal := CashBasis.NormalizeCabaEvents(caba, books.lines, books.origins, dateTo);
    assert normal == Normalised(caba, books, dateTo);
    var reconciled := Reconciliation.ReconciliationLoop(books.invoices, dateFrom, dateTo);
    var pos := PosEventsLoop(books.tickets, dateFrom, dateTo);
    events := normal + reconciled + pos;
  }

  // ------------------------------------------------------------ later period ends change nothing

  /**
   Payments are positive and within their invoices; directly recognised lines are no
   invoices, and cash-basis lines are posted.
   */
  ghost predicate Payable(books: Books) {
    && (forall i | i in books.invoices :: Reconciliation.Payable(i))
    && CashBasis.SoundJournal(books.lines, books.origins)
  }

  /** `whole` restricted to dates through `mid` is `part`. */
  ghost predicate IsPartThrough(part: seq<Event>, whole: seq<Event>, mid: int) {
    forall e :: e in part <==> e in whole && e.date <= mid
  }

  lemma InvoicePartThrough(invoice: Reconciliation.Invoice, dateFrom: int, mid: int, dateTo: int)
    requires Reconciliation.Payable(invoice) && mid <= dateTo
    requires DistinctCategories(invoice.totals) && DistinctPartials(invoice.partials)
    ensures IsPartThrough(Reconciliation.InvoiceEvents(invoice, dateFrom, mid),
                          Reconciliation.InvoiceEvents(invoice, dateFrom, dateTo), mid)
  {
    hide Reconciliation.InvoiceEvents;
    InvoiceEventFacts(invoice, dateFrom, mid);
    InvoiceEventFacts(invoice, dateFrom, dateTo);
    if dateFrom <= mid + 1 {
      InvoiceEventFacts(invoice, mid + 1, dateTo);
      Reconciliation.ConsecutiveWindows(invoice, dateFrom, mid, dateTo);
    }
  }

  lemma {:induction false} ReconciliationPartThrough(invoices: seq<Reconciliation.Invoice>, dateFrom: int, mid: int,
                                                     dateTo: int)
    requires DistinctInvoices(invoices) && mid <= dateTo && forall i | i in invoices :: Reconciliation.Payable(i)
    ensures IsPartThrough(Reconciliation.ReconciliationEvents(invoices, dateFrom, mid),
                          Reconciliation.ReconciliationEvents(invoices, dateFrom, dateTo), mid)
  {
    hide Reconciliation.InvoiceEvents;
    if invoices != [] {
      assert invoices[0] in invoices && forall i | i in invoices[1..] :: i in invoices;
      InvoicePartThrough(invoices[0], dateFrom, mid, dateTo);
      ReconciliationPartThrough(invoices[1..], dateFrom, mid, dateTo);
    }
  }

  lemma {:induction false} PosPartThrough(tickets: seq<Ticket>, dateFrom: int, mid: int, dateTo: int)
    requires mid <= dateTo
    ensures IsPartThrough(PosEvents(tickets, dateFrom, mid), PosEvents(tickets, dateFrom, dateTo), mid)
  {
    if tickets != [] {
      PosPartThrough(tickets[1..], dateFrom, mid, dateTo);
      assert forall e | e in TicketEvents(tickets[0]) :: e.date == TicketDate(tickets[0]);
    }
  }

  /** A corrected event carries its line's final amount, whatever the window. */
  ghost predicate IsCabaEvent(books: Books, e: Event, dateFrom: int, dateTo: int) {
    exists l | l in books.lines :: CashBasis.InWindow(l, dateFrom, dateTo) && e.category in l.categories
      && e == CashBasis.EventFor(l,
         e.category).(amount := CashBasis.FinalAmount(books.lines, books.origins, l, e.category))
  }

  lemma NormalisedAre(books: Books, dateFrom: int, dateTo: int, e: Event)
    requires DistinctJournal(books.lines) && CashBasis.SoundJournal(books.lines, books.origins)
    ensures e in Normalised(CashBasis.CabaEvents(books.lines, dateFrom, dateTo), books, dateTo)
      <==> IsCabaEvent(books, e, dateFrom, dateTo)
  {
    hide CashBasis.Corrected, CashBasis.FinalAmount;
    var caba := CashBasis.CabaEvents(books.lines, dateFrom, dateTo);
    var normal := Normalised(caba, books, dateTo);
    if e in normal {
      var i :| 0 <= i < |normal| && normal[i] == e;
      assert caba[i] in caba;
      var l :| l in books.lines && CashBasis.InWindow(l, dateFrom, dateTo) && caba[i].category in l.categories
               && caba[i] == CashBasis.EventFor(l, caba[i].category);
      CashBasis.CorrectedIsFinal(books.lines, books.origins, dateFrom, dateTo, i, l);
    }
    if IsCabaEvent(books, e, dateFrom, dateTo) {
      var l :| l in books.lines && CashBasis.InWindow(l, dateFrom, dateTo) && e.category in l.categories
               && e == CashBasis.EventFor(l,
                  e.category).(amount := CashBasis.FinalAmount(books.lines, books.origins, l, e.category));
      CashBasis.EveryLineHasItsEvent(books.lines, l, e.category, dateFrom, dateTo);
      var i :| 0 <= i < |caba| && caba[i] == CashBasis.EventFor(l, e.category);
      CashBasis.CorrectedIsFinal(books.lines, books.origins, dateFrom, dateTo, i, l);
      assert normal[i] == e;
    }
  }

  /** Computing through a later end yields the same earlier events, with the same amounts. */
  lemma LaterEndKeepsEvents(books: Books, dateFrom: int, mid: int, dateTo: int)
    requires WellFormed(books) && Payable(books) && mid <= dateTo
    ensures IsPartThrough(RecognitionEvents(books, dateFrom, mid), RecognitionEvents(books, dateFrom, dateTo), mid)
  {
    hide Reconciliation.ReconciliationEvents, PosEvents, Normalised, CashBasis.CabaEvents;
    ReconciliationPartThrough(books.invoices, dateFrom, mid, dateTo);
    PosPartThrough(books.tickets, dateFrom, mid, dateTo);
    forall e
      ensures e in Normalised(CashBasis.CabaEvents(books.lines, dateFrom, mid), books, mid)
        <==> e in Normalised(CashBasis.CabaEvents(books.lines, dateFrom, dateTo), books, dateTo) && e.date <= mid
    {
      NormalisedAre(books, dateFrom, mid, e);
      NormalisedAre(books, dateFrom, dateTo, e);
    }
  }

  // ------------------------------------------------------------ books that grow in date order

  /** The same invoice after further payments, none dated before a known one. */
  ghost predicate PaidFurther(before: Reconciliation.Invoice, after: Reconciliation.Invoice) {
    && after == before.(partials := after.partials)
    && Reconciliation.History(before) <= Reconciliation.History(after)
  }

  lemma {:induction false} BetweenIsMonotone(invoice: Reconciliation.Invoice, s: seq<Reconciliation.Partial>,
                                             k: nat, m: nat, n: nat, dateFrom: int, e: Event)
    requires k <= m <= n <= |s| && invoice.termsBalance != 0
    requires e in Reconciliation.EventsBetween(invoice, s, k, m, dateFrom)
    ensures e in Reconciliation.EventsBetween(invoice, s, k, n, dateFrom)
    decreases m - k
  {
    hide Reconciliation.EventsAt;
    if k < m && e in Reconciliation.EventsBetween(invoice, s, k + 1, m, dateFrom) {
      BetweenIsMonotone(invoice, s, k + 1, m, n, dateFrom, e);
    }
  }

  lemma {:induction false} CutOfPrefix(s: seq<Reconciliation.Partial>, t: seq<Reconciliation.Partial>, d: int)
    requires s <= t
    ensures Reconciliation.Cut(s, d) <= Reconciliation.Cut(t, d)
  {
    if s != [] {
      CutOfPrefix(s[1..], t[1..], d);
    }
  }

  /** What was recognised before a payment arrived stays recognised, unchanged, after it arrived. */
  lemma FurtherPaymentsKeepEvents(before: Reconciliation.Invoice, after: Reconciliation.Invoice,
                                  dateFrom: int, mid: int, dateTo: int, e: Event)
    requires PaidFurther(before, after) && Reconciliation.Payable(after) && Reconciliation.Payable(before)
      && mid <= dateTo
    requires e in Reconciliation.InvoiceEvents(before, dateFrom, mid)
    ensures e in Reconciliation.InvoiceEvents(after, dateFrom, dateTo)
  {
    hide Reconciliation.EventsBetween, Reconciliation.InvoiceEvents, Reconciliation.Cut;
    var s, t := Reconciliation.History(before), Reconciliation.History(after);
    if before.termsBalance != 0 {
      Reconciliation.InvoiceEventsOverHistory(before, dateFrom, mid);
      Reconciliation.InvoiceEventsOverHistory(after, dateFrom, dateTo);
      CutOfPrefix(s, t, mid);
      Reconciliation.CutMonotone(t, mid, dateTo);
      SortByMembers(after.partials, Reconciliation.PartialKey);
      Reconciliation.PaidOfSort(after.partials);
      var n := Reconciliation.Cut(s, mid);
      assert s == t[..|s|];
      Reconciliation.EventsOfPrefix(after, t, |s|, 0, n, dateFrom);
      SameEventsBetween(before, after, s, 0, n, dateFrom);
      BetweenIsMonotone(after, t, 0, n, Reconciliation.Cut(t, dateTo), dateFrom, e);
    } else {
      NothingDue(before, dateFrom, mid);
    }
  }

  lemma NothingDue(invoice: Reconciliation.Invoice, dateFrom: int, dateTo: int)
    requires invoice.termsBalance == 0
    ensures Reconciliation.InvoiceEvents(invoice, dateFrom, dateTo) == []
  {
  }

  /** Events do not look at the payment list of the record, only at the list they are given. */
  lemma {:induction false} SameEventsBetween(a: Reconciliation.Invoice, b: Reconciliation.Invoice,
                                             s: seq<Reconciliation.Partial>, k: nat, n: nat, dateFrom: int)
    requires b == a.(partials := b.partials) && k <= n <= |s| && a.termsBalance != 0
    ensures Reconciliation.EventsBetween(a, s, k, n, dateFrom) == Reconciliation.EventsBetween(b, s, k, n, dateFrom)
    decreases n - k
  {
    if k < n {
      SameRecognised(a, b, a.totals);
      SameEventsAt(a, b, Reconciliation.Recognised(a), s, k);
      SameEventsBetween(a, b, s, k + 1, n, dateFrom);
    }
  }

  lemma {:induction false} SameRecognised(a: Reconciliation.Invoice, b: Reconciliation.Invoice, totals: Totals)
    requires b == a.(partials := b.partials)
    ensures Filter(totals, Reconciliation.NotCashBasis(a)) == Filter(totals, Reconciliation.NotCashBasis(b))
  {
    if totals != [] {
      SameRecognised(a, b, totals[1..]);
    }
  }

  lemma {:induction false} SameEventsAt(a: Reconciliation.Invoice, b: Reconciliation.Invoice, totals: Totals,
                                        s: seq<Reconciliation.Partial>, k: nat)
    requires b == a.(partials := b.partials) && k < |s| && a.termsBalance != 0
    ensures Reconciliation.EventsAt(a, totals, s, k) == Reconciliation.EventsAt(b, totals, s, k)
  {
    if totals != [] {
      SameEventsAt(a, b, totals[1..], s, k);
    }
  }

  /** An event belongs to the slice of its own day, and to every window around it. */
  lemma InvoiceEventByDay(invoice: Reconciliation.Invoice, a: int, b: int, from: int, to: int, e: Event)
    requires Reconciliation.Payable(invoice) && DistinctCategories(invoice.totals) && DistinctPartials(invoice.partials)
    requires e in Reconciliation.InvoiceEvents(invoice, a, b) && from <= e.date <= to
    ensures e in Reconciliation.InvoiceEvents(invoice, from, to)
  {
    hide Reconciliation.InvoiceEvents;
    var d := e.date;
    InvoiceEventFacts(invoice, a, b);
    InvoicePartThrough(invoice, a, d, b);
    InvoiceEventFacts(invoice, a, d - 1);
    Reconciliation.ConsecutiveWindows(invoice, a, d - 1, d);
    assert e in Reconciliation.InvoiceEvents(invoice, d, d);
    Reconciliation.ConsecutiveWindows(invoice, from, d - 1, d);
    InvoicePartThrough(invoice, from, d, to);
  }

  /** Books as they stood before further, later payments, cash-basis lines and tickets were recorded. */
  ghost predicate Earlier(before: Books, after: Books) {
    && CashBasis.Grew(before.lines, before.origins, after.lines, after.origins)
    && (forall t | t in before.tickets :: t in after.tickets)
    && forall i | i in before.invoices :: exists j | j in after.invoices :: PaidFurther(i, j)
  }

  lemma {:induction false} FindInvoice(invoices: seq<Reconciliation.Invoice>, a: int, b: int, e: Event)
    returns (invoice: Reconciliation.Invoice)
    requires e in Reconciliation.ReconciliationEvents(invoices, a, b)
    ensures invoice in invoices && e in Reconciliation.InvoiceEvents(invoice, a, b)
  {
    hide Reconciliation.InvoiceEvents;
    if e in Reconciliation.InvoiceEvents(invoices[0], a, b) {
      invoice := invoices[0];
    } else {
      invoice := FindInvoice(invoices[1..], a, b, e);
    }
  }

  lemma {:induction false} InvoiceContributes(invoices: seq<Reconciliation.Invoice>, invoice: Reconciliation.Invoice,
                                              a: int, b: int, e: Event)
    requires invoice in invoices && e in Reconciliation.InvoiceEvents(invoice, a, b)
    ensures e in Reconciliation.ReconciliationEvents(invoices, a, b)
  {
    hide Reconciliation.InvoiceEvents;
    if invoice != invoices[0] {
      InvoiceContributes(invoices[1..], invoice, a, b, e);
    }
  }

  lemma {:induction false} PosEventByDay(some: seq<Ticket>, tickets: seq<Ticket>, a: int, b: int, from: int, to: int,
                                         e: Event)
    requires (forall t | t in some :: t in tickets) && e in PosEvents(some, a, b) && from <= e.date <= to
    ensures e in PosEvents(tickets, from, to)
  {
    hide TicketEvents;
    if e in PosEvents(some[1..], a, b) {
      PosEventByDay(some[1..], tickets, a, b, from, to, e);
    } else {
      TicketContributes(tickets, some[0], from, to, e);
    }
  }

  lemma {:induction false} TicketContributes(tickets: seq<Ticket>, t: Ticket, from: int, to: int, e: Event)
    requires t in tickets && e in TicketEvents(t) && from <= TicketDate(t) <= to
    ensures e in PosEvents(tickets, from, to)
  {
    hide TicketEvents, TicketDate;
    if t != tickets[0] {
      TicketContributes(tickets[1..], t, from, to, e);
    }
  }

  lemma CabaEventByDay(before: Books, after: Books, a: int, b: int, from: int, to: int, e: Event)
    requires DistinctJournal(before.lines) && CashBasis.SoundJournal(before.lines, before.origins)
    requires DistinctJournal(after.lines) && CashBasis.SoundJournal(after.lines, after.origins)
    requires CashBasis.Grew(before.lines, before.origins, after.lines, after.origins)
    requires e in Normalised(CashBasis.CabaEvents(before.lines, a, b), before, b) && from <= e.date <= to
    ensures e in Normalised(CashBasis.CabaEvents(after.lines, from, to), after, to)
  {
    hide Normalised, CashBasis.CabaEvents, CashBasis.FinalAmount;
    NormalisedAre(before, a, b, e);
    var l :| l in before.lines && CashBasis.InWindow(l, a, b) && e.category in l.categories
             && e == CashBasis.EventFor(l,
                e.category).(amount := CashBasis.FinalAmount(before.lines, before.origins, l, e.category));
    CashBasis.GrowthKeepsFinalAmount(before.lines, before.origins, after.lines, after.origins, l, e.category);
    assert CashBasis.InWindow(l, from, to) && l in after.lines;
    NormalisedAre(after, from, to, e);
  }

  /**
   An event recognised from earlier books, in any window, is recognised with the
   same date and amount from the later books, in every window around its date.
   */
  lemma EarlierEventsAreKept(before: Books, after: Books, a: int, b: int, from: int, to: int, e: Event)
    requires WellFormed(before) && WellFormed(after) && Payable(before) && Payable(after) && Earlier(before, after)
    requires e in RecognitionEvents(before, a, b) && from <= e.date <= to
    ensures e in RecognitionEvents(after, from, to)
  {
    hide Normalised, CashBasis.CabaEvents, PosEvents, Reconciliation.ReconciliationEvents, Reconciliation.InvoiceEvents;
    if e in Normalised(CashBasis.CabaEvents(before.lines, a, b), before, b) {
      CabaEventByDay(before, after, a, b, from, to, e);
    } else if e in PosEvents(before.tickets, a, b) {
      PosEventByDay(before.tickets, after.tickets, a, b, from, to, e);
    } else {
      var i := FindInvoice(before.invoices, a, b, e);
      var j :| j in after.invoices && PaidFurther(i, j);
      FurtherPaymentsKeepEvents(i, j, a, b, b, e);
      InvoiceEventByDay(j, a, b, from, to, e);
      InvoiceContributes(after.invoices, j, from, to, e);
    }
  }
}
