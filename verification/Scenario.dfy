/**
 One invoice of a hundred cents due in two instalments of one and two thirds.
 The first period is filed while the second instalment is booked but its
 receipt not proved; a draft of the second period then finds that, and is filed
 once it is proved. Rounding leaves nothing over.
 */
module Scenario {
  import opened Common
  import opened Events
  import opened Ledger
  import opened FiledTurnover
  import opened ReceiptMethods
  import CashBasis
  import Periods
  import Recognition
  import Reconciliation
  import Rounding
  import Sorting

  const FIRST := Reconciliation.Partial(1, 5, 1, true)

  /** The second instalment, its receipt proved or not. */
  function Second(proved: bool): Reconciliation.Partial {
    Reconciliation.Partial(2, 40, 2, proved)
  }

  function Paid(partials: seq<Reconciliation.Partial>): Reconciliation.Invoice {
    Reconciliation.Invoice(1, [(BicGoods, 100)], {}, 3, partials)
  }

  function Books(partials: seq<Reconciliation.Partial>): Recognition.Books {
    Recognition.Books([], map[], [Paid(partials)], [])
  }

  const EARLY := Books([FIRST, Second(false)])
  const FINAL := Books([FIRST, Second(true)])

  function Received(p: Reconciliation.Partial, amount: int): Event {
    Event(ReconciliationKey(p.id, 1, BicGoods), p.date, BicGoods, amount, p.methodKnown)
  }

  lemma OnlyInvoiceEvents(partials: seq<Reconciliation.Partial>, a: int, b: int)
    ensures Recognition.RecognitionEvents(Books(partials), a, b) == Reconciliation.InvoiceEvents(Paid(partials), a, b)
  {
    hide Reconciliation.InvoiceEvents;
    var books := Books(partials);
    assert CashBasis.CabaEvents(books.lines, a, b) == [];
    assert Recognition.Normalised([], books, b) == [];
    assert books.invoices[1..] == [];
    assert Reconciliation.ReconciliationEvents(books.invoices, a, b)
        == Reconciliation.InvoiceEvents(Paid(partials), a, b);
  }

  lemma FirstFiled()
    ensures Recognition.RecognitionEvents(EARLY, 0, 30) == [Received(FIRST, 33)]
  {
    var s := [FIRST];
    var invoice := Paid([FIRST, Second(false)]);
    OnlyInvoiceEvents([FIRST, Second(false)], 0, 30);
    FirstThrough();
    OneCategory([FIRST, Second(false)]);
    assert Reconciliation.Recognition(100, s, 0, 3) == Rounding.RoundDiv(100, 3) == 33 by {
      assert s[1..] == [] && Reconciliation.Paid(s) == 1;
    }
    assert Reconciliation.EventsAt(invoice, [(BicGoods, 100)], s, 0) == [Received(FIRST, 33)] by {
      assert [(BicGoods, 100)][1..] == [];
    }
  }

  lemma OneCategory(partials: seq<Reconciliation.Partial>)
    ensures Reconciliation.Recognised(Paid(partials)) == [(BicGoods, 100)]
  {
    assert [(BicGoods, 100)][1..] == [];
  }

  lemma FirstThrough()
    ensures Reconciliation.Through([FIRST, Second(false)], 30) == [FIRST]
  {
    var s := [FIRST, Second(false)];
    assert s[1..] == [Second(false)] && s[1..][1..] == [] && [FIRST][1..] == [];
    assert Sorting.Filter(s[1..], Reconciliation.DatedThrough(30)) == [];
    assert Sorting.Filter(s, Reconciliation.DatedThrough(30)) == [FIRST];
  }

  lemma BothThrough(proved: bool)
    ensures Reconciliation.Through([FIRST, Second(proved)], 60) == [FIRST, Second(proved)]
  {
    var second := Second(proved);
    var s := [FIRST, second];
    assert s[1..] == [second] && s[1..][1..] == [];
    assert Sorting.Filter(s[1..], Reconciliation.DatedThrough(60)) == [second];
    assert Sorting.Filter(s, Reconciliation.DatedThrough(60)) == s;
    assert Sorting.SortBy([second], Reconciliation.PartialKey) == [second];
  }

  lemma BothRecognised(proved: bool)
    ensures Recognition.RecognitionEvents(Books([FIRST, Second(proved)]), 0, 60)
         == [Received(FIRST, 33), Received(Second(proved), 67)]
  {
    var s := [FIRST, Second(proved)];
    var invoice := Paid(s);
    OnlyInvoiceEvents(s, 0, 60);
    BothThrough(proved);
    OneCategory(s);
    AmountsOfBoth(proved);
    hide Reconciliation.Recognition, Reconciliation.Through, Reconciliation.Recognised;
    assert [(BicGoods, 100)][1..] == [];
    assert Reconciliation.EventsAt(invoice, [(BicGoods, 100)], s, 0) == [Received(FIRST, 33)];
    assert Reconciliation.EventsAt(invoice, [(BicGoods, 100)], s, 1) == [Received(Second(proved), 67)];
    assert Reconciliation.EventsBetween(invoice, s, 2, 2, 0) == [];
    assert Reconciliation.EventsBetween(invoice, s, 1, 2, 0) == [Received(Second(proved), 67)];
  }

  lemma AmountsOfBoth(proved: bool)
    ensures Reconciliation.Recognition(100, [FIRST, Second(proved)], 0, 3) == 33
    ensures Reconciliation.Recognition(100, [FIRST, Second(proved)], 1, 3) == 67
  {
    var s := [FIRST, Second(proved)];
    assert s[1..] == [Second(proved)] && s[1..][1..] == [] && s[..1] == [FIRST] && [FIRST][1..] == [];
    PaidHere(proved);
    assert Rounding.RoundDiv(100, 3) == 33;
    assert Reconciliation.Proportions(100, [FIRST], 3) == 33;
  }

  // ------------------------------------------------------------ the run

  const NOTHING_FOUND := Review(false, false)

  const RUN := [SetTracking(Some(0)), Create(1, 0, 30), File(1, EARLY, NOTHING_FOUND), Create(2, 31, 60),
                Compute(2, EARLY, NOTHING_FOUND)]

  const FIRST_FILED := Declaration(1, 0, 30, true, false, [Source(Received(FIRST, 33), false)], map[], false)
  const SECOND_DRAFT := Declaration(2, 31, 60, false, false, [], map[], false)

  /** The second declaration with its evidence, blocked while the receipt is unproved. */
  function SecondComputed(proved: bool): Declaration {
    SECOND_DRAFT.(sources := [Source(Received(Second(proved), 67), false)], blocking := !proved)
  }

  lemma FirstFiling()
    ensures var s := LedgerState([Declaration(1, 0, 30, false, false, [], map[], false)], Some(0), None);
      Step(s, File(1, EARLY, NOTHING_FOUND)) == (LedgerState([FIRST_FILED], Some(0), Some(30)), Done)
  {
    hide Recognition.RecognitionEvents;
    var d := Declaration(1, 0, 30, false, false, [], map[], false);
    var s := LedgerState([d], Some(0), None);
    FirstFiled();
    assert Find(s.declarations, 1) == 0;
    var events := Generated(s, 0, EARLY);
    assert events == [Received(FIRST, 33)] && events[1..] == [];
    var sources := [Source(Received(FIRST, 33), false)];
    assert Evidence(events, s.declarations, 0, 0) == sources;
    assert sources[1..] == [];
    assert forall c: Category :: Turnover(sources, c) >= 0;
    assert !NegativeBox(d, sources);
    assert !Anomalous(events, s.declarations, 0, sources, NOTHING_FOUND);
    assert MayCompute(s, 0, NOTHING_FOUND);
    hide Anomalous, Evidence, Generated;
    assert Computed(s, 0, EARLY, NOTHING_FOUND) == d.(sources := sources, blocking := false);
    assert s.declarations[0 := FIRST_FILED] == [FIRST_FILED];
  }

  /** Whatever the second declaration held, computing it gives the second instalment, blocked until it is proved. */
  lemma SecondComputing(draft: Declaration, proved: bool)
    requires draft == SECOND_DRAFT || draft == SecondComputed(false)
    ensures var s := LedgerState([FIRST_FILED, draft], Some(0), Some(30));
      && Find(s.declarations, 2) == 1 && MayCompute(s, 1, NOTHING_FOUND)
      && Computed(s, 1, Books([FIRST, Second(proved)]), NOTHING_FOUND) == SecondComputed(proved)
  {
    hide Recognition.RecognitionEvents, Claimed, ClaimedByDraft;
    var s := LedgerState([FIRST_FILED, draft], Some(0), Some(30));
    var ds, books := s.declarations, Books([FIRST, Second(proved)]);
    BothRecognised(proved);
    assert ds[1..] == [draft];
    assert Find([draft], 2) == 0;
    assert Find(ds, 2) == 1;
    var events := Generated(s, 1, books);
    assert events == [Received(FIRST, 33), Received(Second(proved), 67)];
    assert events[1..] == [Received(Second(proved), 67)] && events[1..][1..] == [];
    var sources := [Source(Received(Second(proved), 67), false)];
    FirstIsClaimed(draft, proved);
    assert Evidence(events[1..], ds, 1, 31) == sources;
    assert Evidence(events, ds, 1, 31) == sources;
    NothingNegative(draft, sources);
    assert Anomalous(events, ds, 1, sources, NOTHING_FOUND) == !proved by {
      assert sources[0] in sources;
    }
  }

  lemma FirstIsClaimed(draft: Declaration, proved: bool)
    ensures var ds := [FIRST_FILED, draft];
      && Claimed(ds, 1, Received(FIRST, 33).key) && !Claimed(ds, 1, Received(Second(proved), 67).key)
      && (forall key :: !ClaimedByDraft(ds, 1, key))
  {
    assert Source(Received(FIRST, 33), false) in FIRST_FILED.sources;
    assert Holds([FIRST_FILED, draft][0], Received(FIRST, 33).key);
  }

  lemma NothingNegative(draft: Declaration, sources: seq<Source>)
    requires draft.adjustments == map[] && |sources| == 1 && sources[0].event.amount >= 0
    ensures !NegativeBox(draft, sources)
  {
    assert sources[1..] == [];
    assert forall c: Category :: Turnover(sources, c) >= 0;
  }

  lemma BeforeSecondFiling()
    ensures Run(EMPTY_LEDGER, RUN) == LedgerState([FIRST_FILED, SecondComputed(false)], Some(0), Some(30))
  {
    var a := LedgerState([], Some(0), None);
    var b := LedgerState([Declaration(1, 0, 30, false, false, [], map[], false)], Some(0), None);
    var c := LedgerState([FIRST_FILED], Some(0), Some(30));
    var d := LedgerState([FIRST_FILED, SECOND_DRAFT], Some(0), Some(30));
    var e := LedgerState([FIRST_FILED, SecondComputed(false)], Some(0), Some(30));
    TrackingSet();
    FirstPeriod();
    SecondPeriod();
    FirstFiling();
    SecondDrafted();
    hide Step;
    assert RUN[1..][1..] == RUN[2..] && RUN[2..][1..] == RUN[3..] && RUN[3..][1..] == RUN[4..] && RUN[4..][1..] == [];
    assert Run(e, []) == e;
    assert Run(d, RUN[4..]) == e;
    assert Run(c, RUN[3..]) == e;
    assert Run(b, RUN[2..]) == e;
    assert Run(a, RUN[1..]) == e;
  }

  lemma TrackingSet()
    ensures Step(EMPTY_LEDGER, SetTracking(Some(0))).0 == LedgerState([], Some(0), None)
  {
  }

  lemma SecondDrafted()
    ensures Step(LedgerState([FIRST_FILED, SECOND_DRAFT], Some(0), Some(30)), Compute(2, EARLY, NOTHING_FOUND)).0
         == LedgerState([FIRST_FILED, SecondComputed(false)], Some(0), Some(30))
  {
    hide Computed, MayCompute;
    SecondComputing(SECOND_DRAFT, false);
    assert [FIRST_FILED, SECOND_DRAFT][1 := SecondComputed(false)] == [FIRST_FILED, SecondComputed(false)];
  }

  lemma SecondFiling()
    ensures Step(LedgerState([FIRST_FILED, SecondComputed(false)], Some(0), Some(30)),
      File(2, FINAL, NOTHING_FOUND)).1 == Done
    ensures Find([FIRST_FILED, SecondComputed(false)], 2) == 1
  {
    hide Computed, MayCompute;
    SecondComputing(SecondComputed(false), true);
  }

  lemma FirstPeriod()
    ensures Step(LedgerState([], Some(0), None), Create(1, 0, 30)).0
         == LedgerState([Declaration(1, 0, 30, false, false, [], map[], false)], Some(0), None)
  {
  }

  lemma SecondPeriod()
    ensures Step(LedgerState([FIRST_FILED], Some(0), Some(30)), Create(2, 31, 60)).0
         == LedgerState([FIRST_FILED, SECOND_DRAFT], Some(0), Some(30))
  {
    var others := PeriodsOf([FIRST_FILED]);
    assert others == [Periods.Period(1, 0, 30)];
    assert others[0] in others;
  }

  /** The draft of the second period cannot be filed while the receipt is unproved. */
  lemma UnprovedReceiptBlocksFiling()
    ensures Step(Run(EMPTY_LEDGER, RUN), File(2, EARLY, NOTHING_FOUND)).1 == Refused
  {
    hide Computed, MayCompute, Run;
    BeforeSecondFiling();
    SecondComputing(SecondComputed(false), false);
  }

  /**
   The hypotheses of the main theorem hold of this run: the instalments are
   rounded apart, filed apart, one of them proved late, and the declarations
   hold the hundred cents.
   */
  lemma InstalmentsAreDeclaredInFull()
    ensures Sound(FINAL) && forall c | c in RUN :: FilesEarlierBooks(c, FINAL)
    ensures Step(Run(EMPTY_LEDGER, RUN), File(2, FINAL, NOTHING_FOUND)).1 == Done
    ensures SumOf(FiledEvents(Step(Run(EMPTY_LEDGER, RUN), File(2, FINAL, NOTHING_FOUND)).0.declarations),
      OfInvoice(1, BicGoods)) == 100
  {
    hide Step, Run, SumOf, FiledEvents, EarlierUpToProof;
    BeforeSecondFiling();
    SecondFiling();
    SoundBooksHere();
    var invoice := Paid([FIRST, Second(true)]);
    OneCategory([FIRST, Second(true)]);
    PaidHere(true);
    assert invoice in FINAL.invoices;
    SettledInvoiceIsDeclaredInFull(RUN, 2, FINAL, NOTHING_FOUND, invoice, 0);
  }

  lemma SoundBooksHere()
    ensures Sound(FINAL) && Sound(EARLY) && EarlierUpToProof(EARLY, FINAL)
  {
    PaidHere(true);
    PaidHere(false);
    hide Reconciliation.Paid;
    assert Reconciliation.Payable(Paid([FIRST, Second(false)])) && Reconciliation.Payable(Paid([FIRST, Second(true)]));
    assert ProvenPartials([FIRST, Second(false)]) == ProvenPartials([FIRST, Second(true)]);
    assert Proven(EARLY) == Proven(FINAL);
    SameBooksAreEarlier(Proven(FINAL));
  }

  lemma PaidHere(proved: bool)
    ensures Reconciliation.Paid([FIRST, Second(proved)]) == 3
  {
    var s := [FIRST, Second(proved)];
    assert s[1..] == [Second(proved)] && [Second(proved)][1..] == [];
    assert Reconciliation.Paid([]) == 0 && Reconciliation.Paid([Second(proved)]) == 2;
  }
}
