/**
 A payment recorded after a filing but dated before it, followed over the
 ledger: what was filed stays, the newcomer is filed with the amount it has
 when it is first seen.
 */
module BackdatedRun {
  import opened Common
  import opened Sorting
  import opened Events
  import opened Ledger
  import opened FiledTurnover
  import Periods
  import Recognition
  import Reconciliation

  // ------------------------------------------------------------ a filing adds what nobody claims

  function Unclaimed(pick: EventKey -> bool, ds: seq<Declaration>, k: nat): EventKey -> bool {
    (key: EventKey) => pick(key) && !Claimed(ds, k, key)
  }

  lemma {:induction false} EvidenceSum(events: seq<Event>, ds: seq<Declaration>, k: nat, dateFrom: int,
                                       pick: EventKey -> bool)
    ensures SumOf(EventsHeld(Evidence(events, ds, k, dateFrom)), pick) == SumOf(events, Unclaimed(pick, ds, k))
  {
    hide Claimed;
    if events != [] {
      EvidenceSum(events[1..], ds, k, dateFrom, pick);
      var rest := Evidence(events[1..], ds, k, dateFrom);
      if !Claimed(ds, k, events[0].key) {
        var x := Source(events[0], events[0].date < dateFrom);
        assert Evidence(events, ds, k, dateFrom) == [x] + rest;
        assert EventsHeld([x] + rest)[1..] == EventsHeld(rest);
      } else {
        assert Evidence(events, ds, k, dateFrom) == rest;
      }
    }
  }

  lemma {:induction false} SumOfConcat(a: seq<Event>, b: seq<Event>, pick: EventKey -> bool)
    ensures SumOf(a + b, pick) == SumOf(a, pick) + SumOf(b, pick)
  {
    if a == [] {
      assert a + b == b;
    } else {
      assert (a + b)[1..] == a[1..] + b;
      SumOfConcat(a[1..], b, pick);
    }
  }

  /** What filed declarations hold of a selection. */
  function Filed(ds: seq<Declaration>, pick: EventKey -> bool): int {
    SumOf(FiledEvents(ds), pick)
  }

  function Own(d: Declaration, pick: EventKey -> bool): int {
    if d.filed then SumOf(EventsHeld(d.sources), pick) else 0
  }

  lemma {:induction false} FiledOfReplace(ds: seq<Declaration>, k: nat, d: Declaration, pick: EventKey -> bool)
    requires k < |ds|
    ensures Filed(ds[k := d], pick) == Filed(ds, pick) - Own(ds[k], pick) + Own(d, pick)
  {
    FiledOfCons(ds, pick);
    FiledOfCons(ds[k := d], pick);
    if k == 0 {
      assert ds[k := d][1..] == ds[1..];
    } else {
      assert ds[k := d][1..] == ds[1..][k - 1 := d];
      FiledOfReplace(ds[1..], k - 1, d, pick);
    }
  }

  lemma FiledOfCons(ds: seq<Declaration>, pick: EventKey -> bool)
    requires ds != []
    ensures Filed(ds, pick) == Own(ds[0], pick) + Filed(ds[1..], pick)
  {
    SumOfConcat(if ds[0].filed then EventsHeld(ds[0].sources) else [], FiledEvents(ds[1..]), pick);
  }

  lemma NothingFiled(pick: EventKey -> bool)
    ensures Filed([], pick) == 0
  {
  }

  lemma {:induction false} FiledOfConcat(a: seq<Declaration>, b: seq<Declaration>, pick: EventKey -> bool)
    ensures Filed(a + b, pick) == Filed(a, pick) + Filed(b, pick)
    decreases |a|
  {
    hide Filed, Own, FiledEvents, SumOf;
    if a == [] {
      assert a + b == b;
      NothingFiled(pick);
    } else {
      FiledOfCons(a, pick);
      FiledOfCons(a + b, pick);
      assert (a + b)[1..] == a[1..] + b;
      FiledOfConcat(a[1..], b, pick);
    }
  }

  /** Filing keeps what was filed and adds exactly the generated events nobody else claims, on whatever books. */
  lemma FilingAddsUnclaimed(s: LedgerState, id: int, books: Recognition.Books, review: Review, pick: EventKey -> bool)
    requires Step(s, File(id, books, review)).1 == Done
    ensures var k := Find(s.declarations, id);
      && MayCompute(s, k, review)
      && Filed(Step(s, File(id, books, review)).0.declarations, pick)
         == Filed(s.declarations, pick) + SumOf(Generated(s, k, books), Unclaimed(pick, s.declarations, k))
  {
    hide Generated, Filed, Anomalous, Evidence, SumOf;
    var k := Find(s.declarations, id);
    var d := Computed(s, k, books, review).(filed := true, hasReason := false);
    FiledOfReplace(s.declarations, k, d, pick);
    EvidenceSum(Generated(s, k, books), s.declarations, k, s.declarations[k].dateFrom, pick);
  }

  // ------------------------------------------------------------ work on drafts leaves what is filed

  /** Anything but filing and reopening. */
  predicate OnDrafts(c: Command) {
    !c.File? && !c.Reset?
  }

  lemma StepOnDrafts(s: LedgerState, c: Command, pick: EventKey -> bool)
    requires OnDrafts(c)
    ensures Filed(Step(s, c).0.declarations, pick) == Filed(s.declarations, pick)
  {
    hide Filed, Computed, Periods.Accepted;
    var ds := s.declarations;
    if Step(s, c).1 == Done {
      match c
      case Create(id, dateFrom, dateTo) =>
        DraftAdded(ds, Declaration(id, dateFrom, dateTo, false, false, [], map[], false), pick);
      case Move(id, dateFrom, dateTo) =>
        var k := Find(ds, id);
        SameFiling(ds, k, ds[k].(dateFrom := dateFrom, dateTo := dateTo), pick);
      case Delete(id) =>
        DraftDeleted(ds, Find(ds, id), pick);
      case Adjust(id, category, amount, _) =>
        var k := Find(ds, id);
        SameFiling(ds, k, ds[k].(adjustments := ds[k].adjustments[category := amount]), pick);
      case Compute(id, books, review) =>
        var k := Find(ds, id);
        ComputedFrame(s, k, books, review);
        SameFiling(ds, k, Computed(s, k, books, review), pick);
      case GiveReason(id) =>
        var k := Find(ds, id);
        SameFiling(ds, k, ds[k].(hasReason := true), pick);
      case SetHorizon(_) =>
      case SetTracking(_) =>
    }
  }

  /** Rewriting a draft, or anything but the evidence of a filed declaration, changes nothing filed. */
  lemma SameFiling(ds: seq<Declaration>, k: nat, d: Declaration, pick: EventKey -> bool)
    requires k < |ds| && d.filed == ds[k].filed && (d.filed ==> d.sources == ds[k].sources)
    ensures Filed(ds[k := d], pick) == Filed(ds, pick)
  {
    FiledOfReplace(ds, k, d, pick);
  }

  lemma DraftHoldsNothing(d: Declaration, pick: EventKey -> bool)
    requires !d.filed
    ensures Filed([d], pick) == 0
  {
    assert [d][1..] == [];
    assert FiledEvents([d]) == [];
  }

  lemma DraftAdded(ds: seq<Declaration>, d: Declaration, pick: EventKey -> bool)
    requires !d.filed
    ensures Filed(ds + [d], pick) == Filed(ds, pick)
  {
    FiledOfConcat(ds, [d], pick);
    DraftHoldsNothing(d, pick);
  }

  lemma DraftDeleted(ds: seq<Declaration>, k: nat, pick: EventKey -> bool)
    requires k < |ds| && !ds[k].filed
    ensures Filed(ds[..k] + ds[k + 1..], pick) == Filed(ds, pick)
  {
    assert ds == ds[..k] + ([ds[k]] + ds[k + 1..]);
    DraftHoldsNothing(ds[k], pick);
    FiledOfConcat(ds[..k], [ds[k]] + ds[k + 1..], pick);
    FiledOfConcat([ds[k]], ds[k + 1..], pick);
    FiledOfConcat(ds[..k], ds[k + 1..], pick);
  }

  lemma {:induction false} RunOnDrafts(s: LedgerState, cs: seq<Command>, pick: EventKey -> bool)
    requires forall c | c in cs :: OnDrafts(c)
    ensures Filed(Run(s, cs).declarations, pick) == Filed(s.declarations, pick)
    decreases |cs|
  {
    hide Filed, Step;
    if cs != [] {
      assert cs[0] in cs;
      StepOnDrafts(s, cs[0], pick);
      RunOnDrafts(Step(s, cs[0]).0, cs[1..], pick);
    }
  }

  /** A key held by a filed declaration. */
  ghost predicate HeldFiled(ds: seq<Declaration>, key: EventKey) {
    exists d :: d in ds && d.filed && Holds(d, key)
  }

  lemma {:induction false} RunKeepsHeld(s: LedgerState, cs: seq<Command>, key: EventKey)
    requires HeldFiled(s.declarations, key) && forall c | c in cs :: OnDrafts(c)
    ensures HeldFiled(Run(s, cs).declarations, key)
  {
    var d :| d in s.declarations && d.filed && Holds(d, key);
    assert FiledAs(s, d);
    FiledEvidenceIsFrozen(s, cs, d);
    var x :| x in Run(s, cs).declarations && x.filed && x == d.(hasReason := x.hasReason);
    assert Holds(x, key);
  }

  lemma HeldIsClaimed(s: LedgerState, id: int, key: EventKey)
    requires HeldFiled(s.declarations, key)
    requires var k := Find(s.declarations, id); k < |s.declarations| && !s.declarations[k].filed
    ensures Claimed(s.declarations, Find(s.declarations, id), key)
  {
    var d :| d in s.declarations && d.filed && Holds(d, key);
    var j :| 0 <= j < |s.declarations| && s.declarations[j] == d;
  }

  // ------------------------------------------------------------ the newcomer's event

  lemma {:induction false} EventIsListed(invoice: Reconciliation.Invoice, s: seq<Reconciliation.Partial>, from: nat,
                                         k: nat, dateFrom: int, i: nat)
    requires from <= k < |s| && invoice.termsBalance != 0 && dateFrom <= s[k].date
    requires i < |Reconciliation.Recognised(invoice)|
    ensures Reconciliation.EventOf(invoice, Reconciliation.Recognised(invoice)[i], s, k)
         in Reconciliation.EventsBetween(invoice, s, from, |s|, dateFrom)
    decreases k - from
  {
    hide Reconciliation.EventOf;
    if from == k {
      EventIsAt(invoice, Reconciliation.Recognised(invoice), s, k, i);
    } else {
      EventIsListed(invoice, s, from + 1, k, dateFrom, i);
    }
  }

  lemma {:induction false} EventIsAt(invoice: Reconciliation.Invoice, totals: Totals, s: seq<Reconciliation.Partial>,
                                     k: nat, i: nat)
    requires k < |s| && invoice.termsBalance != 0 && i < |totals|
    ensures Reconciliation.EventOf(invoice, totals[i], s, k) in Reconciliation.EventsAt(invoice, totals, s, k)
  {
    hide Reconciliation.EventOf;
    if i > 0 {
      EventIsAt(invoice, totals[1..], s, k, i - 1);
    }
  }

  /** Only the newcomer's event is picked from a list without repeated keys when all other picked keys are claimed. */
  lemma OnlyOnePicked(events: seq<Event>, e: Event, pick: EventKey -> bool)
    requires NoDuplicateKeys(events) && e in events && pick(e.key)
    requires forall x | x in events && pick(x.key) :: x.key == e.key
    ensures SumOf(events, pick) == e.amount
  {
    hide SumOf;
    forall x: Event | pick(x.key) ensures x in events <==> x in [e] {
      if x in events {
        SameKeySameEvent(events, x, e);
      }
    }
    Picked(events, [e], pick);
    SameSum(events, [e], pick);
    SumOfOne(e, pick);
  }

  lemma SumOfOne(e: Event, pick: EventKey -> bool)
    requires pick(e.key)
    ensures SumOf([e], pick) == e.amount
  {
    assert [e][1..] == [];
  }

  lemma SameKeySameEvent(events: seq<Event>, x: Event, y: Event)
    requires NoDuplicateKeys(events) && x in events && y in events && x.key == y.key
    ensures x == y
  {
    var i :| 0 <= i < |events| && events[i] == x;
    var j :| 0 <= j < |events| && events[j] == y;
  }

  lemma {:induction false} ProportionsOfInsert(categoryTotal: int, p: Reconciliation.Partial,
                                               s: seq<Reconciliation.Partial>, total: int)
    requires total > 0
    ensures Reconciliation.Proportions(categoryTotal, Insert(p, s, Reconciliation.PartialKey), total)
         == Reconciliation.Proportion(categoryTotal, p, total) + Reconciliation.Proportions(categoryTotal, s, total)
  {
    if s != [] && KeyLess(Reconciliation.PartialKey(s[0]), Reconciliation.PartialKey(p)) {
      ProportionsOfInsert(categoryTotal, p, s[1..], total);
    } else {
      assert ([p] + s)[1..] == s;
    }
  }

  lemma {:induction false} ProportionsOfSort(categoryTotal: int, s: seq<Reconciliation.Partial>, total: int)
    requires total > 0
    ensures Reconciliation.Proportions(categoryTotal, SortBy(s, Reconciliation.PartialKey), total)
         == Reconciliation.Proportions(categoryTotal, s, total)
  {
    if s != [] {
      ProportionsOfSort(categoryTotal, s[1..], total);
      ProportionsOfInsert(categoryTotal, s[0], SortBy(s[1..], Reconciliation.PartialKey), total);
    }
  }

  /** All of an invoice's payments, in date order, up to a day that covers them. */
  lemma HistoryThrough(invoice: Reconciliation.Invoice, to: int)
    requires forall p | p in invoice.partials :: p.date <= to
    ensures Reconciliation.Through(invoice.partials, to) == Reconciliation.History(invoice)
  {
    EverythingThrough(invoice.partials, to);
  }

  // ------------------------------------------------------------ over the ledger

  /** The invoice once one more payment is recorded. */
  function With(invoice: Reconciliation.Invoice, x: Reconciliation.Partial): Reconciliation.Invoice {
    invoice.(partials := invoice.partials + [x])
  }

  /** Every known payment of the invoice is held by a filed declaration. */
  ghost predicate KnownHeld(ds: seq<Declaration>, invoice: Reconciliation.Invoice, category: Category) {
    forall p | p in invoice.partials :: HeldFiled(ds, ReconciliationKey(p.id, invoice.id, category))
  }

  /** The generated events of the invoice and category, when the window covers all its payments. */
  lemma GeneratedForInvoice(s: LedgerState, id: int, books: Recognition.Books, invoice: Reconciliation.Invoice,
                            i: nat, k: nat)
    requires Sound(books) && invoice in books.invoices && i < |Reconciliation.Recognised(invoice)|
    requires invoice.termsBalance != 0 && k < |Reconciliation.History(invoice)|
    requires forall p | p in invoice.partials :: InFiledWindow(s, id, p.date)
    ensures var t := Reconciliation.Recognised(invoice)[i];
      && Reconciliation.EventOf(invoice, t, Reconciliation.History(invoice), k) in GeneratedFor(s, id, books)
      && NoDuplicateKeys(GeneratedFor(s, id, books))
      && (forall e | e in GeneratedFor(s, id, books) && OfInvoice(invoice.id, t.0)(e.key) ::
            exists p | p in invoice.partials :: p.id == e.key.partialId)
  {
    hide Recognition.RecognitionEvents, Reconciliation.EventOf, Reconciliation.EventsBetween, Reconciliation.Through;
    var t, h := Reconciliation.Recognised(invoice)[i], Reconciliation.History(invoice);
    HistoryMembers(invoice);
    assert h[k] in h && InFiledWindow(s, id, h[k].date);
    var a, b := s.trackingStart.value, s.declarations[Find(s.declarations, id)].dateTo;
    HistoryThrough(invoice, b);
    EventIsListed(invoice, h, 0, k, a, i);
    EventNamesPayment(invoice, t, h, k);
    InvoiceShare(books, invoice, t.0, a, b, Reconciliation.EventOf(invoice, t, h, k));
    Recognition.GeneratedKeysAreDistinct(books, a, b);
    forall e | e in GeneratedFor(s, id, books) && OfInvoice(invoice.id, t.0)(e.key)
      ensures exists p | p in invoice.partials :: p.id == e.key.partialId
    {
      InvoiceShare(books, invoice, t.0, a, b, e);
      ListedNamesPayment(invoice, h, 0, |h|, a, e);
    }
  }

  lemma HistoryMembers(invoice: Reconciliation.Invoice)
    ensures forall p :: p in Reconciliation.History(invoice) <==> p in invoice.partials
  {
    SortByMembers(invoice.partials, Reconciliation.PartialKey);
  }

  lemma EventNamesPayment(invoice: Reconciliation.Invoice, t: (Category, int), s: seq<Reconciliation.Partial>, k: nat)
    requires k < |s| && invoice.termsBalance != 0
    ensures Reconciliation.EventOf(invoice, t, s, k).key == ReconciliationKey(s[k].id, invoice.id, t.0)
    ensures Reconciliation.EventOf(invoice, t, s, k).date == s[k].date
  {
  }

  lemma {:induction false} ListedNamesPayment(invoice: Reconciliation.Invoice, s: seq<Reconciliation.Partial>, k: nat,
                                              n: nat, dateFrom: int, e: Event)
    requires k <= n <= |s| && invoice.termsBalance != 0
    requires e in Reconciliation.EventsBetween(invoice, s, k, n, dateFrom)
    ensures e.key.ReconciliationKey? && exists p | p in s :: p.id == e.key.partialId
    decreases n - k
  {
    hide Reconciliation.EventsAt;
    if dateFrom <= s[k].date && e in Reconciliation.EventsAt(invoice, Reconciliation.Recognised(invoice), s, k) {
      AtNamesPayment(invoice, Reconciliation.Recognised(invoice), s, k, e);
      assert s[k] in s;
    } else {
      ListedNamesPayment(invoice, s, k + 1, n, dateFrom, e);
    }
  }

  lemma {:induction false} AtNamesPayment(invoice: Reconciliation.Invoice, totals: Totals,
                                          s: seq<Reconciliation.Partial>, k: nat, e: Event)
    requires k < |s| && invoice.termsBalance != 0 && e in Reconciliation.EventsAt(invoice, totals, s, k)
    ensures e.key.ReconciliationKey? && e.key.partialId == s[k].id
  {
    hide Reconciliation.Recognition;
    if e != Reconciliation.EventOf(invoice, totals[0], s, k) {
      AtNamesPayment(invoice, totals[1..], s, k, e);
    }
  }

  /**
   Filing books with one more payment adds that payment's event, with the amount it has
   there, and nothing else of the invoice.
   */
  lemma FilingAddsNewcomer(s: LedgerState, id: int, after: Recognition.Books, review: Review,
                           invoice: Reconciliation.Invoice, x: Reconciliation.Partial, i: nat, k: nat)
    requires Sound(after) && With(invoice, x) in after.invoices && Step(s, File(id, after, review)).1 == Done
    requires i < |Reconciliation.Recognised(With(invoice, x))| && invoice.termsBalance != 0
    requires k < |Reconciliation.History(With(invoice, x))| && Reconciliation.History(With(invoice, x))[k] == x
    requires forall p | p in With(invoice, x).partials :: InFiledWindow(s, id, p.date)
    requires var c := Reconciliation.Recognised(With(invoice, x))[i].0;
      && KnownHeld(s.declarations, invoice, c)
      && !Claimed(s.declarations, Find(s.declarations, id), ReconciliationKey(x.id, invoice.id, c))
    ensures var t, total := Reconciliation.Recognised(With(invoice, x))[i], Abs(invoice.termsBalance);
      Filed(Step(s, File(id, after, review)).0.declarations, OfInvoice(invoice.id, t.0))
      == Filed(s.declarations, OfInvoice(invoice.id, t.0))
         + Reconciliation.Recognition(t.1, Reconciliation.History(With(invoice, x)), k, total)
  {
    hide Filed, Step, Claimed, HeldFiled, SumOf, InFiledWindow, Generated, Reconciliation.Recognised,
      Reconciliation.History, Reconciliation.Recognition;
    var larger := With(invoice, x);
    var t, n := Reconciliation.Recognised(larger)[i], Find(s.declarations, id);
    var pick := OfInvoice(invoice.id, t.0);
    var e := Reconciliation.EventOf(larger, t, Reconciliation.History(larger), k);
    FilingAddsUnclaimed(s, id, after, review, pick);
    GeneratedForInvoice(s, id, after, larger, i, k);
    var events := Generated(s, n, after);
    assert GeneratedFor(s, id, after) == events;
    forall y | y in events && Unclaimed(pick, s.declarations, n)(y.key) ensures y.key == e.key {
      var p :| p in larger.partials && p.id == y.key.partialId;
      if p in invoice.partials {
        HeldIsClaimed(s, id, y.key);
      }
    }
    OnlyOnePicked(events, e, Unclaimed(pick, s.declarations, n));
  }

  /** A window around an open invoice's payments recognises their rounded proportions. */
  lemma OpenShare(books: Recognition.Books, invoice: Reconciliation.Invoice, i: nat, a: int, b: int)
    requires Sound(books) && invoice in books.invoices && i < |Reconciliation.Recognised(invoice)|
    requires invoice.termsBalance != 0 && Reconciliation.Paid(invoice.partials) != Abs(invoice.termsBalance)
    requires forall p | p in invoice.partials :: a <= p.date <= b
    ensures var t := Reconciliation.Recognised(invoice)[i];
      SumOf(Recognition.RecognitionEvents(books, a, b), OfInvoice(invoice.id, t.0))
      == Reconciliation.Proportions(t.1, invoice.partials, Abs(invoice.termsBalance))
  {
    hide Recognition.RecognitionEvents, Reconciliation.InvoiceEvents, SumOf;
    var t, all, own := Reconciliation.Recognised(invoice)[i], Recognition.RecognitionEvents(books, a, b),
                       Reconciliation.InvoiceEvents(invoice, a, b);
    var pick := OfInvoice(invoice.id, t.0);
    Recognition.GeneratedKeysAreDistinct(books, a, b);
    Recognition.InvoiceEventFacts(invoice, a, b);
    forall e: Event | pick(e.key) ensures e in all <==> e in own {
      InvoiceShare(books, invoice, t.0, a, b, e);
    }
    SameSum(all, own, pick);
    SumOfInvoiceEvents(own, invoice.id, t.0);
    EverythingThrough(invoice.partials, b);
    Reconciliation.SettledInvoiceAddsUp(invoice, a, b, i);
    ProportionsOfSort(t.1, invoice.partials, Abs(invoice.termsBalance));
  }

  /** Once its window is filed, an open invoice's payments are held, at their rounded proportions. */
  lemma OpenInvoiceIsFiled(cs: seq<Command>, id: int, before: Recognition.Books, review: Review,
                           invoice: Reconciliation.Invoice, i: nat)
    requires Sound(before) && forall c | c in cs :: FilesEarlierBooks(c, before)
    requires Step(Run(EMPTY_LEDGER, cs), File(id, before, review)).1 == Done
    requires invoice in before.invoices && i < |Reconciliation.Recognised(invoice)|
    requires invoice.termsBalance != 0 && Reconciliation.Paid(invoice.partials) != Abs(invoice.termsBalance)
    requires invoice.partials != [] && forall p | p in invoice.partials ::
      InFiledWindow(Run(EMPTY_LEDGER, cs), id, p.date)
    ensures var t, ds := Reconciliation.Recognised(invoice)[i],
                         Step(Run(EMPTY_LEDGER, cs), File(id, before, review)).0.declarations;
      && Filed(ds, OfInvoice(invoice.id, t.0))
         == Reconciliation.Proportions(t.1, invoice.partials, Abs(invoice.termsBalance))
      && KnownHeld(ds, invoice, t.0)
  {
    hide *;
    var s, t := Run(EMPTY_LEDGER, cs), Reconciliation.Recognised(invoice)[i];
    EmptyLedger(before);
    FiledMeansComputable(s, id, before, review);
    forall e | IsFinal(before, e) && OfInvoice(invoice.id, t.0)(e.key) ensures InFiledWindow(s, id, e.date) {
      FinalShareIsDated(before, invoice, t.0, e);
    }
    FiledAmountsAddUp(EMPTY_LEDGER, cs, id, before, review, OfInvoice(invoice.id, t.0));
    OpenShareGenerated(s, id, before, review, invoice, i);
    FiledIs(Step(s, File(id, before, review)).0.declarations, OfInvoice(invoice.id, t.0));
    forall c | c in cs ensures SoundBooks(c) {
      EarlierBooksAreSound(c, before);
    }
    RunKeepsValid(EMPTY_LEDGER, cs);
    PaymentsHeld(s, id, before, review, invoice, i);
  }

  lemma FiledIs(ds: seq<Declaration>, pick: EventKey -> bool)
    ensures Filed(ds, pick) == SumOf(FiledEvents(ds), pick)
  {
  }

  lemma OpenShareGenerated(s: LedgerState, id: int, books: Recognition.Books, review: Review,
                           invoice: Reconciliation.Invoice, i: nat)
    requires Sound(books) && MayCompute(s, Find(s.declarations, id), review)
    requires invoice in books.invoices && i < |Reconciliation.Recognised(invoice)|
    requires invoice.termsBalance != 0 && Reconciliation.Paid(invoice.partials) != Abs(invoice.termsBalance)
    requires forall p | p in invoice.partials :: InFiledWindow(s, id, p.date)
    ensures var t := Reconciliation.Recognised(invoice)[i];
      SumOf(GeneratedFor(s, id, books), OfInvoice(invoice.id, t.0))
      == Reconciliation.Proportions(t.1, invoice.partials, Abs(invoice.termsBalance))
  {
    hide Recognition.RecognitionEvents, SumOf;
    OpenShare(books, invoice, i, s.trackingStart.value, s.declarations[Find(s.declarations, id)].dateTo);
  }

  lemma PaymentsHeld(s: LedgerState, id: int, books: Recognition.Books, review: Review,
                     invoice: Reconciliation.Invoice, i: nat)
    requires Valid(s) && Sound(books) && Step(s, File(id, books, review)).1 == Done
    requires MayCompute(s, Find(s.declarations, id), review)
    requires invoice in books.invoices && i < |Reconciliation.Recognised(invoice)| && invoice.termsBalance != 0
    requires forall p | p in invoice.partials :: InFiledWindow(s, id, p.date)
    ensures KnownHeld(Step(s, File(id, books, review)).0.declarations, invoice, Reconciliation.Recognised(invoice)[i].0)
  {
    hide Step, Generated, Reconciliation.History, Reconciliation.EventOf, InFiledWindow, Sound, MayCompute;
    var h, t := Reconciliation.History(invoice), Reconciliation.Recognised(invoice)[i];
    var ds := Step(s, File(id, books, review)).0.declarations;
    HistoryMembers(invoice);
    FiledMeansComputable(s, id, books, review);
    forall p | p in invoice.partials ensures HeldFiled(ds, ReconciliationKey(p.id, invoice.id, t.0)) {
      var k :| 0 <= k < |h| && h[k] == p;
      GeneratedForInvoice(s, id, books, invoice, i, k);
      EventNamesPayment(invoice, t, h, k);
      GeneratedIs(s, id, books, review);
      SoundMeansWellFormed(books);
      FilingClaimsEveryEvent(s, id, books, review, Reconciliation.EventOf(invoice, t, h, k));
      HeldByOne(ds, ReconciliationKey(p.id, invoice.id, t.0));
    }
  }

  lemma GeneratedIs(s: LedgerState, id: int, books: Recognition.Books, review: Review)
    requires MayCompute(s, Find(s.declarations, id), review)
    ensures MayCompute(s, Find(s.declarations, id), review)
    ensures Find(s.declarations, id) < |s.declarations| && s.trackingStart.Some?
    ensures GeneratedFor(s, id, books) == Generated(s, Find(s.declarations, id), books)
  {
  }

  lemma SoundMeansWellFormed(books: Recognition.Books)
    requires Sound(books)
    ensures Recognition.WellFormed(books)
  {
  }

  lemma HeldByOne(ds: seq<Declaration>, key: EventKey)
    requires HeldByOneFiled(ds, key)
    ensures HeldFiled(ds, key)
  {
    var j :| 0 <= j < |ds| && Holds(ds[j], key) && ds[j].filed;
    assert ds[j] in ds;
  }

  /**
   A payment recorded after an open invoice was filed: after any work on drafts
   the next filing leaves the invoice at the rounded proportions of the known
   payments and what the newcomer recognises. Dated before the last known
   payment it leaves all of them at their rounded proportions, so that settling
   it reaches the category total exactly when these add up to it.
   */
  lemma BackdatedPaymentIsFiled(cs: seq<Command>, id: int, before: Recognition.Books, review: Review,
                                drafts: seq<Command>,
                                next: int, after: Recognition.Books, nextReview: Review,
                                invoice: Reconciliation.Invoice, x: Reconciliation.Partial, i: nat, k: nat)
    requires Sound(before) && forall c | c in cs :: FilesEarlierBooks(c, before)
    requires Step(Run(EMPTY_LEDGER, cs), File(id, before, review)).1 == Done
    requires invoice in before.invoices && i < |Reconciliation.Recognised(invoice)|
    requires invoice.termsBalance != 0 && Reconciliation.Paid(invoice.partials) != Abs(invoice.termsBalance)
    requires invoice.partials != [] && forall p | p in invoice.partials ::
      InFiledWindow(Run(EMPTY_LEDGER, cs), id, p.date)
    requires forall c | c in drafts :: OnDrafts(c)
    requires Sound(after) && With(invoice, x) in after.invoices
    requires k < |Reconciliation.History(With(invoice, x))| && Reconciliation.History(With(invoice, x))[k] == x
    requires var s := Run(Step(Run(EMPTY_LEDGER, cs), File(id, before, review)).0, drafts);
      && Step(s, File(next, after, nextReview)).1 == Done
      && (forall p | p in With(invoice, x).partials :: InFiledWindow(s, next, p.date))
      && !Claimed(s.declarations, Find(s.declarations, next),
                  ReconciliationKey(x.id, invoice.id, Reconciliation.Recognised(invoice)[i].0))
    ensures var t, total, h := Reconciliation.Recognised(invoice)[i], Abs(invoice.termsBalance),
                               Reconciliation.History(With(invoice, x));
      var s := Run(Step(Run(EMPTY_LEDGER, cs), File(id, before, review)).0, drafts);
      var filed := Filed(Step(s, File(next, after, nextReview)).0.declarations, OfInvoice(invoice.id, t.0));
      && filed == Reconciliation.Proportions(t.1, invoice.partials, total)
         + Reconciliation.Recognition(t.1, h, k, total)
      && (k + 1 < |h| ==> filed == Reconciliation.Proportions(t.1, h, total))
  {
    hide *;
    var s1 := Step(Run(EMPTY_LEDGER, cs), File(id, before, review)).0;
    var s, t := Run(s1, drafts), Reconciliation.Recognised(invoice)[i];
    OpenInvoiceIsFiled(cs, id, before, review, invoice, i);
    RunOnDrafts(s1, drafts, OfInvoice(invoice.id, t.0));
    KnownStaysHeld(s1, drafts, invoice, t.0);
    SameRecognised(invoice, x);
    FilingAddsNewcomer(s, next, after, nextReview, invoice, x, i, k);
    NewcomerProportion(t.1, invoice, x, k);
  }

  lemma KnownStaysHeld(s: LedgerState, drafts: seq<Command>, invoice: Reconciliation.Invoice, category: Category)
    requires KnownHeld(s.declarations, invoice, category) && forall c | c in drafts :: OnDrafts(c)
    ensures KnownHeld(Run(s, drafts).declarations, invoice, category)
  {
    hide Run, HeldFiled;
    forall p | p in invoice.partials
      ensures HeldFiled(Run(s, drafts).declarations, ReconciliationKey(p.id, invoice.id, category))
    {
      RunKeepsHeld(s, drafts, ReconciliationKey(p.id, invoice.id, category));
    }
  }

  lemma SameRecognised(invoice: Reconciliation.Invoice, x: Reconciliation.Partial)
    ensures Reconciliation.Recognised(With(invoice, x)) == Reconciliation.Recognised(invoice)
    ensures With(invoice, x).id == invoice.id && With(invoice, x).termsBalance == invoice.termsBalance
  {
    Recognition.SameRecognised(invoice, With(invoice, x), invoice.totals);
  }

  /** Before the last payment the newcomer recognises its rounded proportion. */
  lemma NewcomerProportion(categoryTotal: int, invoice: Reconciliation.Invoice, x: Reconciliation.Partial, k: nat)
    requires invoice.termsBalance != 0
    requires k < |Reconciliation.History(With(invoice, x))| && Reconciliation.History(With(invoice, x))[k] == x
    ensures var h, total := Reconciliation.History(With(invoice, x)), Abs(invoice.termsBalance);
      k + 1 < |h| ==>
        Reconciliation.Proportions(categoryTotal, invoice.partials, total)
            + Reconciliation.Recognition(categoryTotal, h, k, total)
        == Reconciliation.Proportions(categoryTotal, h, total)
  {
    var total := Abs(invoice.termsBalance);
    ProportionsOfSort(categoryTotal, invoice.partials + [x], total);
    Reconciliation.ProportionsOfAppend(categoryTotal, invoice.partials, [x], total);
    assert [x][1..] == [];
  }
}
