/**
 What the filed declarations hold in total: every recognised amount once. This
 ties the claim ledger to the recognition engines over whole runs.
 */
module FiledTurnover {
  import opened Common
  import opened Events
  import opened Ledger
  import opened ReceiptMethods
  import CashBasis
  import Recognition
  import Reconciliation
  import Sorting

  /** Events held by filed declarations, declaration by declaration. */
  function FiledEvents(ds: seq<Declaration>): seq<Event> {
    if ds == [] then []
    else (if ds[0].filed then EventsHeld(ds[0].sources) else []) + FiledEvents(ds[1..])
  }

  function EventsHeld(sources: seq<Source>): (r: seq<Event>)
    ensures |r| == |sources| && forall i | 0 <= i < |r| :: r[i] == sources[i].event
  {
    seq(|sources|, i requires 0 <= i < |sources| => sources[i].event)
  }

  /** Amounts of the events a key selection picks. */
  function SumOf(events: seq<Event>, pick: EventKey -> bool): int {
    if events == [] then 0
    else (if pick(events[0].key) then events[0].amount else 0) + SumOf(events[1..], pick)
  }

  // ------------------------------------------------------------ every held event is a final one

  /** An event as the final books recognise it on its day, its method proved or not. */
  ghost predicate IsFinal(final: Recognition.Books, e: Event) {
    Plain(e) in Recognition.RecognitionEvents(Proven(final), e.date, e.date)
  }

  ghost predicate Sound(books: Recognition.Books) {
    Recognition.WellFormed(books) && Recognition.Payable(books)
  }

  /**
   A filing works on the final books, or on books from before some of the
   records and proofs. A draft may be computed on any books, and again once
   they are corrected.
   */
  ghost predicate FilesEarlierBooks(c: Command, final: Recognition.Books) {
    && (c.Compute? ==> Recognition.WellFormed(c.books))
    && (c.File? ==> Sound(c.books) && EarlierUpToProof(c.books, final))
  }

  /** What filed declarations hold is final; drafts may hold anything. */
  ghost predicate AllFinal(ds: seq<Declaration>, final: Recognition.Books) {
    forall d, x | d in ds && d.filed && x in d.sources :: IsFinal(final, x.event)
  }

  /** A key has one final event, up to the proof of its method. */
  lemma FinalByKey(final: Recognition.Books, e: Event, f: Event)
    requires Sound(final) && IsFinal(final, e) && IsFinal(final, f) && e.key == f.key
    ensures Plain(e) == Plain(f)
  {
    hide Recognition.RecognitionEvents, Proven;
    var lo, hi, books := Min(e.date, f.date), Max(e.date, f.date), Proven(final);
    ProofKeepsSoundness(final);
    SameBooksAreEarlier(books);
    Recognition.EarlierEventsAreKept(books, books, e.date, e.date, lo, hi, Plain(e));
    Recognition.EarlierEventsAreKept(books, books, f.date, f.date, lo, hi, Plain(f));
    Recognition.GeneratedKeysAreDistinct(books, lo, hi);
    var all := Recognition.RecognitionEvents(books, lo, hi);
    var i :| 0 <= i < |all| && all[i] == Plain(e);
    var j :| 0 <= j < |all| && all[j] == Plain(f);
  }

  lemma SameBooksAreEarlier(books: Recognition.Books)
    ensures Recognition.Earlier(books, books)
  {
    forall i | i in books.invoices ensures Recognition.PaidFurther(i, i) {
    }
    assert books.lines[|books.lines|..] == [];
    assert books.lines + [] == books.lines;
  }

  /** Whatever window earlier books were asked for, they gave final events. */
  lemma EarlierBooksGiveFinal(before: Recognition.Books, final: Recognition.Books, a: int, b: int, e: Event)
    requires Sound(before) && Sound(final) && EarlierUpToProof(before, final)
    requires e in Recognition.RecognitionEvents(before, a, b)
    ensures IsFinal(final, e)
  {
    hide Recognition.RecognitionEvents, Recognition.Earlier, Proven;
    ProofKeepsSoundness(before);
    ProofKeepsSoundness(final);
    ProofKeepsEvents(before, a, b);
    PlainMember(Recognition.RecognitionEvents(before, a, b), e);
    Recognition.EarlierEventsAreKept(Proven(before), Proven(final), a, b, e.date, e.date, Plain(e));
  }

  lemma StepKeepsFinal(s: LedgerState, c: Command, final: Recognition.Books)
    requires AllFinal(s.declarations, final) && Sound(final) && FilesEarlierBooks(c, final)
    ensures AllFinal(Step(s, c).0.declarations, final)
  {
    hide Recognition.RecognitionEvents, Anomalous, IsFinal, EarlierUpToProof;
    var ds, ds' := s.declarations, Step(s, c).0.declarations;
    if (c.Move? || c.Adjust? || c.GiveReason? || c.Reset?) && Find(ds, c.id) < |ds| {
      assert ds[Find(ds, c.id)] in ds;
    }
    forall d, x | d in ds' && d.filed && x in d.sources ensures IsFinal(final, x.event) {
      if d !in ds && c.File? {
        ComputedIsFinal(s, Find(ds, c.id), c.books, c.review, final, x);
      }
    }
  }

  lemma ComputedIsFinal(s: LedgerState, k: nat, books: Recognition.Books, review: Review, final: Recognition.Books,
                        x: Source)
    requires MayCompute(s, k, review) && Sound(books) && Sound(final) && EarlierUpToProof(books, final)
    requires x in Computed(s, k, books, review).sources
    ensures IsFinal(final, x.event)
  {
    hide Recognition.RecognitionEvents, Computed, EarlierUpToProof, IsFinal;
    ComputedFacts(s, k, books, review);
    EarlierBooksGiveFinal(books, final, s.trackingStart.value, s.declarations[k].dateTo, x.event);
  }

  lemma {:induction false} RunKeepsFinal(s: LedgerState, cs: seq<Command>, final: Recognition.Books)
    requires AllFinal(s.declarations, final) && Sound(final) && forall c | c in cs :: FilesEarlierBooks(c, final)
    ensures AllFinal(Run(s, cs).declarations, final)
    decreases |cs|
  {
    hide AllFinal, FilesEarlierBooks, Step;
    if cs != [] {
      assert cs[0] in cs;
      StepKeepsFinal(s, cs[0], final);
      RunKeepsFinal(Step(s, cs[0]).0, cs[1..], final);
    }
  }

  // ------------------------------------------------------------ sums over distinct keys

  ghost predicate Same(a: seq<Event>, b: seq<Event>, pick: EventKey -> bool) {
    forall e: Event | pick(e.key) :: e in a <==> e in b
  }

  lemma {:induction false} SumWithout(events: seq<Event>, i: nat, pick: EventKey -> bool)
    requires i < |events|
    ensures SumOf(events, pick)
         == SumOf(events[..i] + events[i + 1..], pick) + if pick(events[i].key) then events[i].amount else 0
    decreases i
  {
    if i == 0 {
      assert events[..0] + events[1..] == events[1..];
    } else {
      SumWithout(events[1..], i - 1, pick);
      var rest := events[..i] + events[i + 1..];
      assert rest[0] == events[0] && rest[1..] == events[1..][..i - 1] + events[1..][i..];
    }
  }

  /** Two lists without repeated keys that pick the same events have the same sum. */
  lemma {:induction false} SameSum(a: seq<Event>, b: seq<Event>, pick: EventKey -> bool)
    requires NoDuplicateKeys(a) && NoDuplicateKeys(b) && Same(a, b, pick)
    ensures SumOf(a, pick) == SumOf(b, pick)
    decreases |a|
  {
    if a == [] {
      NothingPicked(b, pick);
    } else if !pick(a[0].key) {
      SameSum(a[1..], b, pick);
    } else {
      assert a[0] in a && a[0] in b;
      var i :| 0 <= i < |b| && b[i] == a[0];
      var rest := b[..i] + b[i + 1..];
      SumWithout(b, i, pick);
      assert forall j | 0 <= j < |rest| :: rest[j] == b[if j < i then j else j + 1];
      forall e: Event | pick(e.key) ensures e in a[1..] <==> e in rest {
        RestOf(a, 0, e);
        RestOf(b, i, e);
        assert a[..0] + a[1..] == a[1..];
      }
      SameSum(a[1..], rest, pick);
    }
  }

  lemma RestOf(s: seq<Event>, i: nat, e: Event)
    requires i < |s| && NoDuplicateKeys(s)
    ensures e in s[..i] + s[i + 1..] <==> e in s && e != s[i]
  {
    var rest := s[..i] + s[i + 1..];
    if e in rest {
      var j :| 0 <= j < |rest| && rest[j] == e;
      assert s[if j < i then j else j + 1] == e;
    }
    if e in s && e != s[i] {
      var j :| 0 <= j < |s| && s[j] == e;
      assert rest[if j < i then j else j - 1] == e;
    }
  }

  lemma {:induction false} NothingPicked(b: seq<Event>, pick: EventKey -> bool)
    requires forall e | e in b :: !pick(e.key)
    ensures SumOf(b, pick) == 0
  {
    if b != [] {
      assert b[0] in b;
      NothingPicked(b[1..], pick);
    }
  }

  lemma {:induction false} FiledEventsFacts(ds: seq<Declaration>)
    requires OneHolder(ds) && forall d | d in ds :: NoDuplicates(d.sources)
    ensures NoDuplicateKeys(FiledEvents(ds))
    ensures forall e | e in FiledEvents(ds) :: exists d, x | d in ds && x in d.sources :: d.filed && x.event == e
    ensures forall d, x | d in ds && d.filed && x in d.sources :: x.event in FiledEvents(ds)
  {
    if ds != [] {
      var rest, head := FiledEvents(ds[1..]), if ds[0].filed then EventsHeld(ds[0].sources) else [];
      TailOneHolder(ds);
      FiledEventsFacts(ds[1..]);
      assert ds[0] in ds;
      forall i | 0 <= i < |head| ensures ds[0].sources[i] in ds[0].sources && head[i] == ds[0].sources[i].event {
      }
      forall x, y | x in head && y in rest ensures x.key != y.key {
        var d, z :| d in ds[1..] && z in d.sources && d.filed && z.event == y;
        var j :| 1 <= j < |ds| && ds[j] == d;
        assert Holds(ds[j], y.key);
        OnlyHolder(ds, j, 0, y.key);
      }
      Recognition.NoDuplicatesInSum(head, rest);
      forall x | ds[0].filed && x in ds[0].sources ensures x.event in head {
        var i :| 0 <= i < |ds[0].sources| && ds[0].sources[i] == x;
        assert head[i] == x.event;
      }
    }
  }

  lemma TailOneHolder(ds: seq<Declaration>)
    requires ds != [] && OneHolder(ds)
    ensures OneHolder(ds[1..])
  {
    hide Holds;
    forall i, j, key | 0 <= i < j < |ds[1..]| ensures !(Holds(ds[1..][i], key) && Holds(ds[1..][j], key)) {
      var i', j' := i + 1, j + 1;
      assert ds[1..][i] == ds[i'] && ds[1..][j] == ds[j'];
    }
  }

  // ------------------------------------------------------------ the totals of a run

  /**
   After any run whose filings were on books that only grew since, and a
   successful filing on the final books: for any selection of keys whose events
   all fall in the filed window, the filed declarations together hold exactly
   those events. Nothing is missing and nothing is counted twice.
   */
  lemma FiledAmountsAddUp(s: LedgerState, cs: seq<Command>, id: int, final: Recognition.Books, review: Review,
                          pick: EventKey -> bool)
    requires Valid(s) && AllFinal(s.declarations, final) && Sound(final)
    requires forall c | c in cs :: FilesEarlierBooks(c, final)
    requires Step(Run(s, cs), File(id, final, review)).1 == Done
    requires forall e | IsFinal(final, e) && pick(e.key) :: InFiledWindow(Run(s, cs), id, e.date)
    ensures SumOf(FiledEvents(Step(Run(s, cs), File(id, final, review)).0.declarations), pick)
         == SumOf(GeneratedFor(Run(s, cs), id, final), pick)
  {
    hide *;
    var s1, file := Run(s, cs), File(id, final, review);
    FiledMeansComputable(s1, id, final, review);
    forall c | c in cs ensures SoundBooks(c) {
      EarlierBooksAreSound(c, final);
    }
    RunKeepsValid(s, cs);
    RunKeepsFinal(s, cs, final);
    FilingOnFinalBooks(id, final, review);
    StepKeepsValid(s1, file);
    StepKeepsFinal(s1, file, final);
    var ds, all := Step(s1, file).0.declarations, GeneratedFor(s1, id, final);
    ValidHoldings(Step(s1, file).0);
    FiledEventsFacts(ds);
    GeneratedOnce(s1, id, final);
    var held, given := PlainAll(FiledEvents(ds)), PlainAll(all);
    forall e: Event | pick(e.key) ensures e in held <==> e in given {
      if e in given {
        var f := PlainOf(all, e);
        HeldWhenGenerated(s1, id, final, review, f);
      }
      if e in held {
        var f := PlainOf(FiledEvents(ds), e);
        HeldIsFinal(ds, final, f);
        FinalInWindow(s1, id, final, f);
      }
    }
    Picked(held, given, pick);
    PlainKeys(FiledEvents(ds));
    PlainKeys(all);
    SameSum(held, given, pick);
    PlainSum(FiledEvents(ds), pick);
    PlainSum(all, pick);
  }

  lemma PlainOf(events: seq<Event>, e: Event) returns (f: Event)
    requires e in PlainAll(events)
    ensures f in events && Plain(f) == e && f.key == e.key && f.date == e.date
  {
    PlainSource(events, e);
    f :| f in events && Plain(f) == e;
  }

  lemma PlainKeys(events: seq<Event>)
    requires NoDuplicateKeys(events)
    ensures NoDuplicateKeys(PlainAll(events))
  {
  }

  lemma {:induction false} PlainSum(events: seq<Event>, pick: EventKey -> bool)
    ensures SumOf(PlainAll(events), pick) == SumOf(events, pick)
  {
    if events != [] {
      assert PlainAll(events)[1..] == PlainAll(events[1..]);
      PlainSum(events[1..], pick);
    }
  }

  /** The day lies between the tracking start and the end of the declaration. */
  ghost predicate InFiledWindow(s: LedgerState, id: int, date: int) {
    var k := Find(s.declarations, id);
    k < |s.declarations| && s.trackingStart.Some? && s.trackingStart.value <= date <= s.declarations[k].dateTo
  }

  ghost function GeneratedFor(s: LedgerState, id: int, books: Recognition.Books): seq<Event> {
    var k := Find(s.declarations, id);
    if k < |s.declarations| && s.trackingStart.Some? then Generated(s, k, books) else []
  }

  lemma FiledMeansComputable(s: LedgerState, id: int, books: Recognition.Books, review: Review)
    requires Step(s, File(id, books, review)).1 == Done
    ensures MayCompute(s, Find(s.declarations, id), review)
  {
  }

  lemma EarlierBooksAreSound(c: Command, final: Recognition.Books)
    requires FilesEarlierBooks(c, final)
    ensures SoundBooks(c)
  {
  }

  lemma FilingOnFinalBooks(id: int, final: Recognition.Books, review: Review)
    requires Sound(final)
    ensures FilesEarlierBooks(File(id, final, review), final) && SoundBooks(File(id, final, review))
  {
    SameBooksAreEarlier(Proven(final));
  }

  lemma ValidHoldings(s: LedgerState)
    requires Valid(s)
    ensures OneHolder(s.declarations) && forall d | d in s.declarations :: NoDuplicates(d.sources)
  {
  }

  lemma Picked(a: seq<Event>, b: seq<Event>, pick: EventKey -> bool)
    requires forall e: Event | pick(e.key) :: e in a <==> e in b
    ensures Same(a, b, pick)
  {
  }

  lemma GeneratedOnce(s: LedgerState, id: int, books: Recognition.Books)
    requires Sound(books)
    ensures NoDuplicateKeys(GeneratedFor(s, id, books))
  {
    hide Recognition.RecognitionEvents;
    if GeneratedFor(s, id, books) != [] {
      Recognition.GeneratedKeysAreDistinct(books, s.trackingStart.value,
          s.declarations[Find(s.declarations, id)].dateTo);
    }
  }

  /** A generated event ends up in filed evidence, with the amount it was generated with. */
  lemma HeldWhenGenerated(s: LedgerState, id: int, final: Recognition.Books, review: Review, e: Event)
    requires Valid(s) && Sound(final) && Step(s, File(id, final, review)).1 == Done
    requires MayCompute(s, Find(s.declarations, id), review)
    requires AllFinal(Step(s, File(id, final, review)).0.declarations, final)
    requires OneHolder(Step(s, File(id, final, review)).0.declarations)
    requires forall d | d in Step(s, File(id, final, review)).0.declarations :: NoDuplicates(d.sources)
    requires e in GeneratedFor(s, id, final)
    ensures Plain(e) in PlainAll(FiledEvents(Step(s, File(id, final, review)).0.declarations))
  {
    hide Recognition.RecognitionEvents, Step, Computed, IsFinal, EarlierUpToProof;
    var k := Find(s.declarations, id);
    var ds := Step(s, File(id, final, review)).0.declarations;
    FilingClaimsEveryEvent(s, id, final, review, e);
    FiledEventsFacts(ds);
    FilingOnFinalBooks(id, final, review);
    EarlierBooksGiveFinal(final, final, s.trackingStart.value, s.declarations[k].dateTo, e);
    var j :| 0 <= j < |ds| && Holds(ds[j], e.key) && ds[j].filed;
    var x :| x in ds[j].sources && x.event.key == e.key;
    assert ds[j] in ds;
    FinalByKey(final, x.event, e);
    PlainMember(FiledEvents(ds), x.event);
  }

  lemma HeldIsFinal(ds: seq<Declaration>, final: Recognition.Books, e: Event)
    requires OneHolder(ds) && (forall d | d in ds :: NoDuplicates(d.sources)) && AllFinal(ds, final)
      && e in FiledEvents(ds)
    ensures IsFinal(final, e)
  {
    FiledEventsFacts(ds);
  }

  lemma FinalInWindow(s: LedgerState, id: int, final: Recognition.Books, e: Event)
    requires Sound(final) && IsFinal(final, e) && InFiledWindow(s, id, e.date)
    ensures Plain(e) in PlainAll(GeneratedFor(s, id, final))
  {
    hide Recognition.RecognitionEvents, Proven;
    var a, b := s.trackingStart.value, s.declarations[Find(s.declarations, id)].dateTo;
    ProofKeepsSoundness(final);
    ProofKeepsEvents(final, a, b);
    SameBooksAreEarlier(Proven(final));
    Recognition.EarlierEventsAreKept(Proven(final), Proven(final), e.date, e.date, a, b, Plain(e));
  }

  // ------------------------------------------------------------ a settled invoice is declared in full, once

  function OfInvoice(invoiceId: int, category: Category): EventKey -> bool {
    (k: EventKey) => k.ReconciliationKey? && k.invoiceId == invoiceId && k.category == category
  }

  /** Keys of an invoice's events name the invoice and the event's category. */
  lemma {:induction false} SumOfInvoiceEvents(events: seq<Event>, invoiceId: int, category: Category)
    requires forall e | e in events ::
      e.key.ReconciliationKey? && e.key.invoiceId == invoiceId && e.key.category == e.category
    ensures SumOf(events, OfInvoice(invoiceId, category)) == AmountIn(events, category)
  {
    if events != [] {
      assert events[0] in events;
      SumOfInvoiceEvents(events[1..], invoiceId, category);
    }
  }

  lemma SameInvoice(invoices: seq<Reconciliation.Invoice>, a: Reconciliation.Invoice, b: Reconciliation.Invoice)
    requires Recognition.DistinctInvoices(invoices) && a in invoices && b in invoices && a.id == b.id
    ensures a == b
  {
    var i :| 0 <= i < |invoices| && invoices[i] == a;
    var j :| 0 <= j < |invoices| && invoices[j] == b;
  }

  lemma OnlyReconciled(books: Recognition.Books, a: int, b: int, e: Event)
    requires Recognition.WellFormed(books) && e.key.ReconciliationKey?
      && e in Recognition.RecognitionEvents(books, a, b)
    ensures e in Reconciliation.ReconciliationEvents(books.invoices, a, b)
  {
    hide Reconciliation.ReconciliationEvents;
    Recognition.CabaKeysDistinct(books.lines, a, b);
    Recognition.PosKeysDistinct(books.tickets, a, b);
    var normal := Recognition.Normalised(CashBasis.CabaEvents(books.lines, a, b), books, b);
    forall x | x in normal ensures x.key.CabaKey? {
      var i :| 0 <= i < |normal| && normal[i] == x;
      assert CashBasis.CabaEvents(books.lines, a, b)[i] in CashBasis.CabaEvents(books.lines, a, b);
    }
  }

  /** The recognised events with an invoice's keys are the invoice's own, and dated by its payments. */
  lemma InvoiceShare(books: Recognition.Books, invoice: Reconciliation.Invoice, category: Category, a: int, b: int,
                     e: Event)
    requires Sound(books) && invoice in books.invoices && OfInvoice(invoice.id, category)(e.key)
    ensures e in Recognition.RecognitionEvents(books, a, b) <==> e in Reconciliation.InvoiceEvents(invoice, a, b)
    ensures e in Recognition.RecognitionEvents(books, a, b) ==> exists p | p in invoice.partials :: p.date == e.date
  {
    hide Recognition.Normalised, Recognition.PosEvents, Reconciliation.ReconciliationEvents,
        Reconciliation.InvoiceEvents;
    Recognition.InvoiceEventFacts(invoice, a, b);
    if e in Recognition.RecognitionEvents(books, a, b) {
      OnlyReconciled(books, a, b, e);
      var i := Recognition.FindInvoice(books.invoices, a, b, e);
      Recognition.InvoiceEventFacts(i, a, b);
      SameInvoice(books.invoices, i, invoice);
    }
    if e in Reconciliation.InvoiceEvents(invoice, a, b) {
      Recognition.InvoiceContributes(books.invoices, invoice, a, b, e);
    }
  }

  lemma {:induction false} EverythingThrough(partials: seq<Reconciliation.Partial>, to: int)
    requires forall p | p in partials :: p.date <= to
    ensures Sorting.Filter(partials, Reconciliation.DatedThrough(to)) == partials
    ensures Reconciliation.Paid(Reconciliation.Through(partials, to)) == Reconciliation.Paid(partials)
  {
    if partials != [] {
      assert partials[0] in partials;
      EverythingThrough(partials[1..], to);
    }
    Reconciliation.PaidOfSort(partials);
  }

  /** A settled invoice's share of a window around its payments is its category total. */
  lemma SettledShare(books: Recognition.Books, invoice: Reconciliation.Invoice, i: nat, a: int, b: int)
    requires Sound(books) && invoice in books.invoices && i < |Reconciliation.Recognised(invoice)|
    requires invoice.termsBalance != 0 && Reconciliation.Paid(invoice.partials) == Abs(invoice.termsBalance)
    requires forall p | p in invoice.partials :: a <= p.date <= b
    ensures var t := Reconciliation.Recognised(invoice)[i];
      SumOf(Recognition.RecognitionEvents(books, a, b), OfInvoice(invoice.id, t.0)) == t.1
  {
    hide Recognition.RecognitionEvents, Reconciliation.InvoiceEvents, SumOf;
    var t, all, own := Reconciliation.Recognised(invoice)[i], Recognition.RecognitionEvents(books, a, b),
                       Reconciliation.InvoiceEvents(invoice, a, b);
    var pick := OfInvoice(invoice.id, t.0);
    Recognition.GeneratedKeysAreDistinct(books, a, b);
    Recognition.InvoiceEventFacts(invoice, a, b);
    forall e: Event | pick(e.key) ensures e in all <==> e in own {
      InvoiceShare(books, invoice, t.0, a, b, e);
    }
    SameSum(all, own, pick);
    SumOfInvoiceEvents(own, invoice.id, t.0);
    EverythingThrough(invoice.partials, b);
    Reconciliation.SettledInvoiceAddsUp(invoice, a, b, i);
  }

  const EMPTY_LEDGER := LedgerState([], None, None)

  /**
   From an empty ledger, over any run of commands whose filings were on books
   that only grew since, by later payments, journal lines, tickets and proofs:
   once a period reaching a settled invoice's last payment is filed, the filed
   declarations together hold exactly the invoice's total of each recognised
   category, however many declarations its payments fell into.
   */
  lemma SettledInvoiceIsDeclaredInFull(cs: seq<Command>, id: int, final: Recognition.Books, review: Review,
                                       invoice: Reconciliation.Invoice, i: nat)
    requires Sound(final) && forall c | c in cs :: FilesEarlierBooks(c, final)
    requires Step(Run(EMPTY_LEDGER, cs), File(id, final, review)).1 == Done
    requires invoice in final.invoices && i < |Reconciliation.Recognised(invoice)|
    requires invoice.termsBalance != 0 && Reconciliation.Paid(invoice.partials) == Abs(invoice.termsBalance)
    requires forall p | p in invoice.partials :: InFiledWindow(Run(EMPTY_LEDGER, cs), id, p.date)
    ensures var t := Reconciliation.Recognised(invoice)[i];
      SumOf(FiledEvents(Step(Run(EMPTY_LEDGER, cs), File(id, final, review)).0.declarations),
          OfInvoice(invoice.id, t.0)) == t.1
  {
    hide *;
    var s1, t := Run(EMPTY_LEDGER, cs), Reconciliation.Recognised(invoice)[i];
    EmptyLedger(final);
    FiledMeansComputable(s1, id, final, review);
    forall e | IsFinal(final, e) && OfInvoice(invoice.id, t.0)(e.key) ensures InFiledWindow(s1, id, e.date) {
      FinalShareIsDated(final, invoice, t.0, e);
    }
    FiledAmountsAddUp(EMPTY_LEDGER, cs, id, final, review, OfInvoice(invoice.id, t.0));
    ShareGenerated(s1, id, final, review, invoice, i);
  }

  lemma EmptyLedger(final: Recognition.Books)
    ensures Valid(EMPTY_LEDGER) && AllFinal(EMPTY_LEDGER.declarations, final)
  {
  }

  lemma FinalShareIsDated(final: Recognition.Books, invoice: Reconciliation.Invoice, category: Category, e: Event)
    requires Sound(final) && invoice in final.invoices && IsFinal(final, e) && OfInvoice(invoice.id, category)(e.key)
    ensures exists p | p in invoice.partials :: p.date == e.date
  {
    hide Recognition.RecognitionEvents, Proven;
    ProofKeepsEvents(final, e.date, e.date);
    var f := PlainOf(Recognition.RecognitionEvents(final, e.date, e.date), Plain(e));
    InvoiceShare(final, invoice, category, e.date, e.date, f);
  }

  lemma ShareGenerated(s1: LedgerState, id: int, final: Recognition.Books, review: Review,
                       invoice: Reconciliation.Invoice, i: nat)
    requires Sound(final) && MayCompute(s1, Find(s1.declarations, id), review)
    requires invoice in final.invoices && i < |Reconciliation.Recognised(invoice)|
    requires invoice.termsBalance != 0 && Reconciliation.Paid(invoice.partials) == Abs(invoice.termsBalance)
    requires forall p | p in invoice.partials :: InFiledWindow(s1, id, p.date)
    ensures var t := Reconciliation.Recognised(invoice)[i];
      SumOf(GeneratedFor(s1, id, final), OfInvoice(invoice.id, t.0)) == t.1
  {
    hide Recognition.RecognitionEvents, SumOf;
    SettledShare(final, invoice, i, s1.trackingStart.value, s1.declarations[Find(s1.declarations, id)].dateTo);
  }

  // ------------------------------------------------------------ so is a settled invoice recognised on the cash basis

  function OfOrigin(originId: int, category: Category): EventKey -> bool {
    (k: EventKey) => k.CabaKey? && k.originId == originId && k.category == category
  }

  /** What the cash-basis lines of one origin recognise in the end. */
  ghost function FinalEvents(some: seq<CashBasis.JournalLine>, books: Recognition.Books, originId: int,
                             category: Category): seq<Event> {
    if some == [] then []
    else
      (if CashBasis.InGroup(some[0], originId, category) then [FinalEvent(some[0], books, category)] else [])
      + FinalEvents(some[1..], books, originId, category)
  }

  ghost function FinalEvent(line: CashBasis.JournalLine, books: Recognition.Books, category: Category): Event {
    CashBasis.EventFor(line, category).(amount := CashBasis.FinalAmount(books.lines, books.origins, line, category))
  }

  lemma {:induction false} FinalEventsFacts(some: seq<CashBasis.JournalLine>, books: Recognition.Books,
                                            originId: int, category: Category)
    requires CashBasis.DistinctLines(some)
    ensures var r := FinalEvents(some, books, originId, category);
      && NoDuplicateKeys(r)
      && SumOf(r, OfOrigin(originId, category))
         == CashBasis.FinalSum(some, books.lines, books.origins, originId, category)
      && (forall e ::
            e in r <==>
            exists l | l in some :: CashBasis.InGroup(l, originId, category) && e == FinalEvent(l, books, category))
  {
    hide CashBasis.FinalAmount;
    if some != [] {
      assert some == [some[0]] + some[1..];
      assert forall x | x in some[1..] :: x.id != some[0].id;
      FinalEventsFacts(some[1..], books, originId, category);
      var first, rest := some[0], FinalEvents(some[1..], books, originId, category);
      if CashBasis.InGroup(first, originId, category) {
        FirstFinalEvent(first, rest, some[1..], books, originId, category);
      } else {
        assert FinalEvents(some, books, originId, category) == rest;
      }
    }
  }

  lemma FirstFinalEvent(first: CashBasis.JournalLine, rest: seq<Event>, lines: seq<CashBasis.JournalLine>,
                        books: Recognition.Books, originId: int, category: Category)
    requires NoDuplicateKeys(rest) && CashBasis.InGroup(first, originId, category) && forall x | x in lines ::
      x.id != first.id
    requires forall e | e in rest :: exists l | l in lines ::
      CashBasis.InGroup(l, originId, category) && e == FinalEvent(l, books, category)
    ensures var r := [FinalEvent(first, books, category)] + rest;
      && NoDuplicateKeys(r)
      && SumOf(r, OfOrigin(originId, category))
         == FinalEvent(first, books, category).amount + SumOf(rest, OfOrigin(originId, category))
  {
    hide CashBasis.FinalAmount;
    var r := [FinalEvent(first, books, category)] + rest;
    forall j | 1 <= j < |r| ensures r[0].key != r[j].key {
      assert r[j] in rest;
    }
    assert r[1..] == rest;
  }

  lemma OnlyCashBasis(books: Recognition.Books, a: int, b: int, e: Event)
    requires Recognition.WellFormed(books) && Recognition.Payable(books) && e.key.CabaKey?
    ensures e in Recognition.RecognitionEvents(books, a, b) <==> Recognition.IsCabaEvent(books, e, a, b)
  {
    hide Recognition.Normalised, Reconciliation.ReconciliationEvents, Recognition.PosEvents, Recognition.IsCabaEvent;
    Recognition.ReconciliationKeysDistinct(books.invoices, a, b);
    Recognition.PosKeysDistinct(books.tickets, a, b);
    Recognition.NormalisedAre(books, a, b, e);
  }

  /** An origin's share of a window around its lines is what they recognise in the end. */
  lemma OriginShare(books: Recognition.Books, last: CashBasis.JournalLine, category: Category, a: int, b: int)
    requires Sound(books) && Settles(books, last, category)
    requires forall l | l in books.lines && CashBasis.InGroup(l, last.originId, category) :: a <= l.date <= b
    ensures SumOf(Recognition.RecognitionEvents(books, a, b), OfOrigin(last.originId, category))
         == books.origins[last.originId].totals[category]
  {
    hide Recognition.RecognitionEvents, SumOf, CashBasis.FinalAmount, FinalEvents, CashBasis.FinalSum;
    var all, own := Recognition.RecognitionEvents(books, a, b),
        FinalEvents(books.lines, books, last.originId, category);
    var pick := OfOrigin(last.originId, category);
    Recognition.GeneratedKeysAreDistinct(books, a, b);
    FinalEventsFacts(books.lines, books, last.originId, category);
    forall e: Event | pick(e.key) ensures e in all <==> e in own {
      OnlyCashBasis(books, a, b, e);
    }
    SameSum(all, own, pick);
    CashBasis.SettledOriginAddsUp(books.lines, books.origins, last, category);
  }

  /** The line is the last of a settled invoice's category. */
  ghost predicate Settles(books: Recognition.Books, last: CashBasis.JournalLine, category: Category) {
    && last in books.lines && CashBasis.InGroup(last, last.originId, category)
    && CashBasis.LastLine(books.lines, last, category)
    && CashBasis.SettledInvoice(books.origins, last.originId, category)
  }

  /** The same for an invoice recognised by cash-basis journal lines, whose last line absorbs the rounding. */
  lemma SettledOriginIsDeclaredInFull(cs: seq<Command>, id: int, final: Recognition.Books, review: Review,
                                      last: CashBasis.JournalLine, category: Category)
    requires Sound(final) && forall c | c in cs :: FilesEarlierBooks(c, final)
    requires Step(Run(EMPTY_LEDGER, cs), File(id, final, review)).1 == Done
    requires Settles(final, last, category)
    requires forall l | l in final.lines && CashBasis.InGroup(l, last.originId, category) ::
      InFiledWindow(Run(EMPTY_LEDGER, cs), id, l.date)
    ensures SumOf(FiledEvents(Step(Run(EMPTY_LEDGER, cs), File(id, final, review)).0.declarations),
      OfOrigin(last.originId, category))
         == final.origins[last.originId].totals[category]
  {
    hide *;
    var s1, pick := Run(EMPTY_LEDGER, cs), OfOrigin(last.originId, category);
    EmptyLedger(final);
    FiledMeansComputable(s1, id, final, review);
    forall e | IsFinal(final, e) && pick(e.key) ensures InFiledWindow(s1, id, e.date) {
      OriginEventIsDated(final, last, category, e);
    }
    FiledAmountsAddUp(EMPTY_LEDGER, cs, id, final, review, pick);
    OriginShareGenerated(s1, id, final, review, last, category);
  }

  lemma OriginEventIsDated(final: Recognition.Books, last: CashBasis.JournalLine, category: Category, e: Event)
    requires Sound(final) && Settles(final, last, category) && IsFinal(final, e)
      && OfOrigin(last.originId, category)(e.key)
    ensures exists l | l in final.lines :: CashBasis.InGroup(l, last.originId, category) && l.date == e.date
  {
    hide Recognition.RecognitionEvents, CashBasis.FinalAmount, Proven;
    ProofKeepsEvents(final, e.date, e.date);
    var f := PlainOf(Recognition.RecognitionEvents(final, e.date, e.date), Plain(e));
    OnlyCashBasis(final, e.date, e.date, f);
  }

  lemma OriginShareGenerated(s1: LedgerState, id: int, final: Recognition.Books, review: Review,
                             last: CashBasis.JournalLine, category: Category)
    requires Sound(final) && MayCompute(s1, Find(s1.declarations, id), review) && Settles(final, last, category)
    requires forall l | l in final.lines && CashBasis.InGroup(l, last.originId, category) ::
      InFiledWindow(s1, id, l.date)
    ensures SumOf(GeneratedFor(s1, id, final), OfOrigin(last.originId, category))
      == final.origins[last.originId].totals[category]
  {
    hide Recognition.RecognitionEvents, SumOf;
    OriginShare(final, last, category, s1.trackingStart.value, s1.declarations[Find(s1.declarations, id)].dateTo);
  }

  // ------------------------------------------------------------ and a completed ticket

  function OfTicket(orderId: int, category: Category): EventKey -> bool {
    (k: EventKey) => k.PosKey? && k.orderId == orderId && k.category == category
  }

  lemma OnlyTickets(books: Recognition.Books, a: int, b: int, e: Event)
    requires Recognition.WellFormed(books) && e.key.PosKey?
    ensures e in Recognition.RecognitionEvents(books, a, b) <==> e in Recognition.PosEvents(books.tickets, a, b)
  {
    hide Reconciliation.ReconciliationEvents, Recognition.PosEvents;
    Recognition.CabaKeysDistinct(books.lines, a, b);
    Recognition.ReconciliationKeysDistinct(books.invoices, a, b);
    var normal := Recognition.Normalised(CashBasis.CabaEvents(books.lines, a, b), books, b);
    forall x | x in normal ensures x.key.CabaKey? {
      var i :| 0 <= i < |normal| && normal[i] == x;
      assert CashBasis.CabaEvents(books.lines, a, b)[i] in CashBasis.CabaEvents(books.lines, a, b);
    }
  }

  /** An event with a ticket's key comes from that ticket. */
  lemma {:induction false} TicketOfEvent(tickets: seq<Recognition.Ticket>, a: int, b: int, e: Event,
                                         t: Recognition.Ticket)
    requires Recognition.DistinctTickets(tickets) && t in tickets && e.key.PosKey? && e.key.orderId == t.id
    requires a <= Recognition.TicketDate(t) <= b
    ensures e in Recognition.PosEvents(tickets, a, b) <==> e in Recognition.TicketEvents(t)
  {
    hide Recognition.TicketDate;
    if tickets[0] == t {
      Recognition.PosKeysDistinct(tickets[1..], a, b);
      assert forall x | x in tickets[1..] :: x.id != t.id;
    } else {
      TicketOfEvent(tickets[1..], a, b, e, t);
    }
  }

  lemma {:induction false} SumOfTicketEvents(events: seq<Event>, orderId: int, category: Category)
    requires forall e | e in events :: e.key == PosKey(orderId, e.category)
    ensures SumOf(events, OfTicket(orderId, category)) == AmountIn(events, category)
  {
    if events != [] {
      assert events[0] in events;
      SumOfTicketEvents(events[1..], orderId, category);
    }
  }

  lemma TicketShare(books: Recognition.Books, t: Recognition.Ticket, category: Category, a: int, b: int)
    requires Sound(books) && t in books.tickets && Recognition.CategoriesOnce([t])
      && a <= Recognition.TicketDate(t) <= b
    ensures SumOf(Recognition.RecognitionEvents(books, a, b), OfTicket(t.id, category))
         == Recognition.CategoryAmount(t.lines, category)
  {
    hide Recognition.RecognitionEvents, Recognition.PosEvents, SumOf, Recognition.TicketDate,
        Recognition.CategoryAmount;
    var all, own, pick := Recognition.RecognitionEvents(books, a, b), Recognition.TicketEvents(t),
        OfTicket(t.id, category);
    Recognition.GeneratedKeysAreDistinct(books, a, b);
    forall e: Event | pick(e.key) ensures e in all <==> e in own {
      OnlyTickets(books, a, b, e);
      TicketOfEvent(books.tickets, a, b, e, t);
    }
    SameSum(all, own, pick);
    SumOfTicketEvents(own, t.id, category);
    Recognition.TicketAmounts(t, category);
  }

  /** A completed ticket, too, is held in full by the filed declarations once its day is filed. */
  lemma TicketIsDeclaredInFull(cs: seq<Command>, id: int, final: Recognition.Books, review: Review,
                               t: Recognition.Ticket, category: Category)
    requires Sound(final) && forall c | c in cs :: FilesEarlierBooks(c, final)
    requires Step(Run(EMPTY_LEDGER, cs), File(id, final, review)).1 == Done
    requires t in final.tickets && Recognition.CategoriesOnce([t])
    requires InFiledWindow(Run(EMPTY_LEDGER, cs), id, Recognition.TicketDate(t))
    ensures SumOf(FiledEvents(Step(Run(EMPTY_LEDGER, cs), File(id, final, review)).0.declarations),
      OfTicket(t.id, category))
         == Recognition.CategoryAmount(t.lines, category)
  {
    hide *;
    var s1, pick := Run(EMPTY_LEDGER, cs), OfTicket(t.id, category);
    EmptyLedger(final);
    FiledMeansComputable(s1, id, final, review);
    forall e | IsFinal(final, e) && pick(e.key) ensures InFiledWindow(s1, id, e.date) {
      TicketEventIsDated(final, t, category, e);
    }
    FiledAmountsAddUp(EMPTY_LEDGER, cs, id, final, review, pick);
    TicketShareGenerated(s1, id, final, review, t, category);
  }

  lemma TicketEventIsDated(final: Recognition.Books, t: Recognition.Ticket, category: Category, e: Event)
    requires Sound(final) && t in final.tickets && IsFinal(final, e) && OfTicket(t.id, category)(e.key)
    ensures e.date == Recognition.TicketDate(t)
  {
    hide Recognition.RecognitionEvents, Proven, Recognition.TicketDate;
    ProofKeepsEvents(final, e.date, e.date);
    var f := PlainOf(Recognition.RecognitionEvents(final, e.date, e.date), Plain(e));
    OnlyTickets(final, e.date, e.date, f);
    EventOfTicket(final.tickets, e.date, e.date, f, t);
  }

  lemma {:induction false} EventOfTicket(tickets: seq<Recognition.Ticket>, a: int, b: int, e: Event,
                                         t: Recognition.Ticket)
    requires Recognition.DistinctTickets(tickets) && t in tickets && e.key.PosKey? && e.key.orderId == t.id
    requires e in Recognition.PosEvents(tickets, a, b)
    ensures e.date == Recognition.TicketDate(t)
  {
    hide Recognition.TicketDate;
    if tickets[0] == t {
      Recognition.PosKeysDistinct(tickets[1..], a, b);
      assert forall x | x in tickets[1..] :: x.id != t.id;
    } else {
      EventOfTicket(tickets[1..], a, b, e, t);
    }
  }

  lemma TicketShareGenerated(s1: LedgerState, id: int, final: Recognition.Books, review: Review,
                             t: Recognition.Ticket, category: Category)
    requires Sound(final) && MayCompute(s1, Find(s1.declarations, id), review)
    requires t in final.tickets && Recognition.CategoriesOnce([t])
    requires InFiledWindow(s1, id, Recognition.TicketDate(t))
    ensures SumOf(GeneratedFor(s1, id, final), OfTicket(t.id, category))
      == Recognition.CategoryAmount(t.lines, category)
  {
    hide Recognition.RecognitionEvents, SumOf, Recognition.TicketDate;
    TicketShare(final, t, category, s1.trackingStart.value, s1.declarations[Find(s1.declarations, id)].dateTo);
  }
}
