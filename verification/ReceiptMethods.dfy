/**
 How a receipt's method is proved later: what the engines recognise, and when,
 does not depend on which receipts are proved so far.
 */
module ReceiptMethods {
  import opened Sorting
  import opened Events
  import CashBasis
  import Recognition
  import Reconciliation

  /** The event with its method taken as proved. */
  function Plain(e: Event): Event {
    e.(methodKnown := true)
  }

  function PlainAll(events: seq<Event>): (r: seq<Event>)
    ensures |r| == |events| && forall i | 0 <= i < |r| :: r[i] == Plain(events[i])
  {
    seq(|events|, i requires 0 <= i < |events| => Plain(events[i]))
  }

  function ProvenLine(l: CashBasis.JournalLine): CashBasis.JournalLine {
    l.(methodKnown := true)
  }

  function ProvenLines(lines: seq<CashBasis.JournalLine>): (r: seq<CashBasis.JournalLine>)
    ensures |r| == |lines| && forall i | 0 <= i < |r| :: r[i] == ProvenLine(lines[i])
  {
    seq(|lines|, i requires 0 <= i < |lines| => ProvenLine(lines[i]))
  }

  function ProvenPartial(p: Reconciliation.Partial): Reconciliation.Partial {
    p.(methodKnown := true)
  }

  function ProvenPartials(s: seq<Reconciliation.Partial>): (r: seq<Reconciliation.Partial>)
    ensures |r| == |s| && forall i | 0 <= i < |r| :: r[i] == ProvenPartial(s[i])
  {
    seq(|s|, i requires 0 <= i < |s| => ProvenPartial(s[i]))
  }

  function ProvenInvoice(invoice: Reconciliation.Invoice): Reconciliation.Invoice {
    invoice.(partials := ProvenPartials(invoice.partials))
  }

  function ProvenInvoices(invoices: seq<Reconciliation.Invoice>): (r: seq<Reconciliation.Invoice>)
    ensures |r| == |invoices| && forall i | 0 <= i < |r| :: r[i] == ProvenInvoice(invoices[i])
  {
    seq(|invoices|, i requires 0 <= i < |invoices| => ProvenInvoice(invoices[i]))
  }

  function ProvenTicket(t: Recognition.Ticket): Recognition.Ticket {
    t.(methodKnown := true)
  }

  function ProvenTickets(tickets: seq<Recognition.Ticket>): (r: seq<Recognition.Ticket>)
    ensures |r| == |tickets| && forall i | 0 <= i < |r| :: r[i] == ProvenTicket(tickets[i])
  {
    seq(|tickets|, i requires 0 <= i < |tickets| => ProvenTicket(tickets[i]))
  }

  /** The books as they stand once every receipt's method is proved. */
  function Proven(books: Recognition.Books): Recognition.Books {
    Recognition.Books(ProvenLines(books.lines), books.origins, ProvenInvoices(books.invoices),
        ProvenTickets(books.tickets))
  }

  /** Books as they stood before further, later records came in, and before some receipts were proved. */
  ghost predicate EarlierUpToProof(before: Recognition.Books, after: Recognition.Books) {
    Recognition.Earlier(Proven(before), Proven(after))
  }

  lemma PlainConcat(a: seq<Event>, b: seq<Event>)
    ensures PlainAll(a + b) == PlainAll(a) + PlainAll(b)
  {
  }

  // ------------------------------------------------------------ cash-basis lines

  lemma {:induction false} CabaOfProven(lines: seq<CashBasis.JournalLine>, a: int, b: int)
    ensures CashBasis.CabaEvents(ProvenLines(lines), a, b) == PlainAll(CashBasis.CabaEvents(lines, a, b))
  {
    if lines != [] {
      CabaOfProven(lines[1..], a, b);
      var l := lines[0];
      assert ProvenLines(lines)[1..] == ProvenLines(lines[1..]);
      var head := if CashBasis.InWindow(l, a, b) then CashBasis.EventsOf(l, l.categories) else [];
      assert CashBasis.EventsOf(ProvenLine(l), l.categories) == PlainAll(CashBasis.EventsOf(l, l.categories));
      PlainConcat(head, CashBasis.CabaEvents(lines[1..], a, b));
    }
  }

  lemma {:induction false} OthersOfProven(lines: seq<CashBasis.JournalLine>, o: int, c: Category, d: int, except: int)
    ensures CashBasis.SumOthers(ProvenLines(lines), o, c, d, except) == CashBasis.SumOthers(lines, o, c, d, except)
  {
    if lines != [] {
      assert ProvenLines(lines)[1..] == ProvenLines(lines[1..]);
      OthersOfProven(lines[1..], o, c, d, except);
    }
  }

  lemma LaterOfProven(lines: seq<CashBasis.JournalLine>, o: int, c: Category, d: int)
    ensures CashBasis.HasLater(ProvenLines(lines), o, c, d) <==> CashBasis.HasLater(lines, o, c, d)
  {
    var proven := ProvenLines(lines);
    if l :| l in lines && CashBasis.OfGroup(l, o, c) && l.date > d {
      var i :| 0 <= i < |lines| && lines[i] == l;
      assert proven[i] in proven;
    }
    if l :| l in proven && CashBasis.OfGroup(l, o, c) && l.date > d {
      var i :| 0 <= i < |proven| && proven[i] == l;
      assert lines[i] in lines;
    }
  }

  lemma CorrectedOfProven(events: seq<Event>, i: nat, lines: seq<CashBasis.JournalLine>, origins: CashBasis.Origins,
                          d: int)
    requires i < |events|
    ensures CashBasis.Corrected(PlainAll(events), i, ProvenLines(lines), origins, d)
      == CashBasis.Corrected(events, i, lines, origins, d)
  {
    hide CashBasis.SumOthers, CashBasis.HasLater;
    var e, plain := events[i], PlainAll(events);
    if e.key.CabaKey? {
      OthersOfProven(lines, e.key.originId, e.key.category, d, e.key.lineId);
      LaterOfProven(lines, e.key.originId, e.key.category, d);
      assert forall j | 0 <= j < |events| :: plain[j].key == events[j].key && plain[j].date == events[j].date;
    }
  }

  lemma NormalisedOfProven(books: Recognition.Books, a: int, b: int)
    ensures Recognition.Normalised(CashBasis.CabaEvents(Proven(books).lines, a, b), Proven(books), b)
         == PlainAll(Recognition.Normalised(CashBasis.CabaEvents(books.lines, a, b), books, b))
  {
    hide CashBasis.Corrected, CashBasis.CabaEvents;
    CabaOfProven(books.lines, a, b);
    var caba := CashBasis.CabaEvents(books.lines, a, b);
    forall i | 0 <= i < |caba|
      ensures CashBasis.Corrected(PlainAll(caba), i, Proven(books).lines, books.origins, b)
           == CashBasis.Corrected(caba, i, books.lines, books.origins, b)
    {
      CorrectedOfProven(caba, i, books.lines, books.origins, b);
    }
  }

  // ------------------------------------------------------------ reconciliations

  lemma NoPartials()
    ensures ProvenPartials([]) == []
  {
  }

  lemma ProvenCons(p: Reconciliation.Partial, s: seq<Reconciliation.Partial>)
    ensures ProvenPartials([p] + s) == [ProvenPartial(p)] + ProvenPartials(s)
  {
  }

  lemma {:induction false} InsertOfProven(p: Reconciliation.Partial, s: seq<Reconciliation.Partial>)
    ensures Insert(ProvenPartial(p), ProvenPartials(s), Reconciliation.PartialKey)
         == ProvenPartials(Insert(p, s, Reconciliation.PartialKey))
  {
    hide ProvenPartials, KeyLess;
    if s == [] {
      NoPartials();
      ProvenCons(p, []);
      assert [p] + [] == [p] && [ProvenPartial(p)] + [] == [ProvenPartial(p)];
    } else {
      var first, rest := s[0], s[1..];
      assert s == [first] + rest;
      ProvenCons(first, rest);
      var proven := ProvenPartials(s);
      assert proven[0] == ProvenPartial(first) && proven[1..] == ProvenPartials(rest);
      if KeyLess(Reconciliation.PartialKey(first), Reconciliation.PartialKey(p)) {
        InsertOfProven(p, rest);
        ProvenCons(first, Insert(p, rest, Reconciliation.PartialKey));
      } else {
        ProvenCons(p, s);
      }
    }
  }

  lemma {:induction false} SortOfProven(s: seq<Reconciliation.Partial>)
    ensures SortBy(ProvenPartials(s), Reconciliation.PartialKey) == ProvenPartials(SortBy(s, Reconciliation.PartialKey))
  {
    if s != [] {
      assert ProvenPartials(s)[1..] == ProvenPartials(s[1..]);
      SortOfProven(s[1..]);
      InsertOfProven(s[0], SortBy(s[1..], Reconciliation.PartialKey));
    }
  }

  lemma {:induction false} FilterOfProven(s: seq<Reconciliation.Partial>, d: int)
    ensures Filter(ProvenPartials(s), Reconciliation.DatedThrough(d))
      == ProvenPartials(Filter(s, Reconciliation.DatedThrough(d)))
  {
    if s != [] {
      assert ProvenPartials(s)[1..] == ProvenPartials(s[1..]);
      FilterOfProven(s[1..], d);
    }
  }

  lemma ThroughOfProven(s: seq<Reconciliation.Partial>, d: int)
    ensures Reconciliation.Through(ProvenPartials(s), d) == ProvenPartials(Reconciliation.Through(s, d))
  {
    FilterOfProven(s, d);
    SortOfProven(Filter(s, Reconciliation.DatedThrough(d)));
  }

  lemma {:induction false} PaidOfProven(s: seq<Reconciliation.Partial>)
    ensures Reconciliation.Paid(ProvenPartials(s)) == Reconciliation.Paid(s)
  {
    if s != [] {
      assert ProvenPartials(s)[1..] == ProvenPartials(s[1..]);
      PaidOfProven(s[1..]);
    }
  }

  lemma {:induction false} ProportionsOfProven(categoryTotal: int, s: seq<Reconciliation.Partial>, total: int)
    requires total > 0
    ensures Reconciliation.Proportions(categoryTotal, ProvenPartials(s), total)
      == Reconciliation.Proportions(categoryTotal, s, total)
  {
    if s != [] {
      assert ProvenPartials(s)[1..] == ProvenPartials(s[1..]);
      ProportionsOfProven(categoryTotal, s[1..], total);
    }
  }

  lemma RecognitionOfProven(categoryTotal: int, s: seq<Reconciliation.Partial>, k: nat, total: int)
    requires k < |s| && total > 0
    ensures Reconciliation.Recognition(categoryTotal, ProvenPartials(s), k, total)
      == Reconciliation.Recognition(categoryTotal, s, k, total)
  {
    PaidOfProven(s);
    assert ProvenPartials(s)[..k] == ProvenPartials(s[..k]);
    ProportionsOfProven(categoryTotal, s[..k], total);
  }

  lemma {:induction false} EventsAtOfProven(invoice: Reconciliation.Invoice, totals: Totals,
                                            s: seq<Reconciliation.Partial>, k: nat)
    requires k < |s| && invoice.termsBalance != 0
    ensures Reconciliation.EventsAt(ProvenInvoice(invoice), totals, ProvenPartials(s), k)
         == PlainAll(Reconciliation.EventsAt(invoice, totals, s, k))
  {
    hide Reconciliation.Recognition;
    if totals != [] {
      EventsAtOfProven(invoice, totals[1..], s, k);
      RecognitionOfProven(totals[0].1, s, k, if invoice.termsBalance >= 0 then invoice.termsBalance
          else -invoice.termsBalance);
      PlainConcat([Reconciliation.EventOf(invoice, totals[0], s, k)],
          Reconciliation.EventsAt(invoice, totals[1..], s, k));
    }
  }

  lemma {:induction false} EventsBetweenOfProven(invoice: Reconciliation.Invoice, s: seq<Reconciliation.Partial>,
                                                 k: nat, n: nat, dateFrom: int)
    requires k <= n <= |s| && invoice.termsBalance != 0
    ensures Reconciliation.EventsBetween(ProvenInvoice(invoice), ProvenPartials(s), k, n, dateFrom)
         == PlainAll(Reconciliation.EventsBetween(invoice, s, k, n, dateFrom))
    decreases n - k
  {
    hide Reconciliation.EventsAt;
    if k < n {
      var totals := Reconciliation.Recognised(invoice);
      Recognition.SameRecognised(invoice, ProvenInvoice(invoice), invoice.totals);
      EventsBetweenOfProven(invoice, s, k + 1, n, dateFrom);
      EventsAtOfProven(invoice, totals, s, k);
      var head := if dateFrom <= s[k].date then Reconciliation.EventsAt(invoice, totals, s, k) else [];
      PlainConcat(head, Reconciliation.EventsBetween(invoice, s, k + 1, n, dateFrom));
    }
  }

  lemma InvoiceOfProven(invoice: Reconciliation.Invoice, a: int, b: int)
    ensures Reconciliation.InvoiceEvents(ProvenInvoice(invoice), a, b)
      == PlainAll(Reconciliation.InvoiceEvents(invoice, a, b))
  {
    hide Reconciliation.EventsBetween, Reconciliation.Through;
    if invoice.termsBalance != 0 {
      ThroughOfProven(invoice.partials, b);
      var s := Reconciliation.Through(invoice.partials, b);
      EventsBetweenOfProven(invoice, s, 0, |s|, a);
    }
  }

  lemma {:induction false} ReconciliationOfProven(invoices: seq<Reconciliation.Invoice>, a: int, b: int)
    ensures Reconciliation.ReconciliationEvents(ProvenInvoices(invoices), a, b)
         == PlainAll(Reconciliation.ReconciliationEvents(invoices, a, b))
  {
    hide Reconciliation.InvoiceEvents;
    if invoices != [] {
      assert ProvenInvoices(invoices)[1..] == ProvenInvoices(invoices[1..]);
      InvoiceOfProven(invoices[0], a, b);
      ReconciliationOfProven(invoices[1..], a, b);
      PlainConcat(Reconciliation.InvoiceEvents(invoices[0], a, b),
          Reconciliation.ReconciliationEvents(invoices[1..], a, b));
    }
  }

  // ------------------------------------------------------------ tickets

  lemma {:induction false} PosOfProven(tickets: seq<Recognition.Ticket>, a: int, b: int)
    ensures Recognition.PosEvents(ProvenTickets(tickets), a, b) == PlainAll(Recognition.PosEvents(tickets, a, b))
  {
    if tickets != [] {
      var t := tickets[0];
      assert ProvenTickets(tickets)[1..] == ProvenTickets(tickets[1..]);
      PosOfProven(tickets[1..], a, b);
      var head := if a <= Recognition.TicketDate(t) <= b then Recognition.TicketEvents(t) else [];
      assert Recognition.TicketEvents(ProvenTicket(t)) == PlainAll(Recognition.TicketEvents(t));
      PlainConcat(head, Recognition.PosEvents(tickets[1..], a, b));
    }
  }

  // ------------------------------------------------------------ all together

  /** Proving receipts changes no event but for the proof. */
  lemma ProofKeepsEvents(books: Recognition.Books, a: int, b: int)
    ensures Recognition.RecognitionEvents(Proven(books), a, b) == PlainAll(Recognition.RecognitionEvents(books, a, b))
  {
    hide Recognition.Normalised, Recognition.PosEvents, Reconciliation.ReconciliationEvents, CashBasis.CabaEvents;
    NormalisedOfProven(books, a, b);
    ReconciliationOfProven(books.invoices, a, b);
    PosOfProven(books.tickets, a, b);
    var normal := Recognition.Normalised(CashBasis.CabaEvents(books.lines, a, b), books, b);
    var reconciled := Reconciliation.ReconciliationEvents(books.invoices, a, b);
    PlainConcat(normal, reconciled);
    PlainConcat(normal + reconciled, Recognition.PosEvents(books.tickets, a, b));
  }

  /** Ids, positivity and direct origins do not look at the proof. */
  lemma ProofKeepsSoundness(books: Recognition.Books)
    requires Recognition.WellFormed(books) && Recognition.Payable(books)
    ensures Recognition.WellFormed(Proven(books)) && Recognition.Payable(Proven(books))
  {
    LinesStaySound(books);
    forall i | i in Proven(books).invoices
      ensures DistinctCategories(i.totals) && Recognition.DistinctPartials(i.partials) && Reconciliation.Payable(i)
    {
      var k :| 0 <= k < |books.invoices| && ProvenInvoice(books.invoices[k]) == i;
      assert books.invoices[k] in books.invoices;
      InvoiceStaysPayable(books.invoices[k]);
    }
  }

  lemma LinesStaySound(books: Recognition.Books)
    requires Recognition.DistinctJournal(books.lines) && CashBasis.SoundJournal(books.lines, books.origins)
    ensures Recognition.DistinctJournal(Proven(books).lines)
    ensures CashBasis.SoundJournal(Proven(books).lines, books.origins)
  {
    var proven := ProvenLines(books.lines);
    forall l | l in proven ensures exists k ::
        0 <= k < |books.lines| && l == ProvenLine(books.lines[k]) && books.lines[k] in books.lines {
      var k :| 0 <= k < |proven| && proven[k] == l;
    }
  }

  lemma InvoiceStaysPayable(invoice: Reconciliation.Invoice)
    requires Reconciliation.Payable(invoice)
    ensures Reconciliation.Payable(ProvenInvoice(invoice))
  {
    PaidOfProven(invoice.partials);
    forall p | p in ProvenPartials(invoice.partials) ensures p.amount > 0 {
      var k :| 0 <= k < |invoice.partials| && ProvenPartial(invoice.partials[k]) == p;
      assert invoice.partials[k] in invoice.partials;
    }
  }

  /**
   An event recognised from earlier books, in any window, is recognised with
   the same date and amount from the later books, in every window around its
   date, whichever receipts were proved in between.
   */
  lemma EarlierEventsSurviveProof(before: Recognition.Books, after: Recognition.Books, a: int, b: int, from: int,
                                  to: int, e: Event)
    requires Recognition.WellFormed(before) && Recognition.Payable(before) && Recognition.WellFormed(after)
      && Recognition.Payable(after)
    requires EarlierUpToProof(before, after) && e in Recognition.RecognitionEvents(before, a, b) && from <= e.date <= to
    ensures exists f | f in Recognition.RecognitionEvents(after, from, to) :: Plain(f) == Plain(e)
  {
    hide Recognition.RecognitionEvents, Recognition.Earlier, Proven;
    ProofKeepsSoundness(before);
    ProofKeepsSoundness(after);
    ProofKeepsEvents(before, a, b);
    ProofKeepsEvents(after, from, to);
    PlainMember(Recognition.RecognitionEvents(before, a, b), e);
    Recognition.EarlierEventsAreKept(Proven(before), Proven(after), a, b, from, to, Plain(e));
    PlainSource(Recognition.RecognitionEvents(after, from, to), Plain(e));
  }

  lemma PlainMember(events: seq<Event>, e: Event)
    requires e in events
    ensures Plain(e) in PlainAll(events)
  {
    var i :| 0 <= i < |events| && events[i] == e;
    assert PlainAll(events)[i] == Plain(e);
  }

  lemma PlainSource(events: seq<Event>, e: Event)
    requires e in PlainAll(events)
    ensures exists f | f in events :: Plain(f) == e
  {
    var i :| 0 <= i < |events| && PlainAll(events)[i] == e;
    assert events[i] in events;
  }
}
