/** When a declaration is filed, and what it then holds, told by the events and claims alone. */
module FilingExactly {
  import opened Common
  import opened Sorting
  import opened Events
  import opened Ledger
  import Recognition

  /** Some other declaration holds the key. */
  ghost predicate Elsewhere(ds: seq<Declaration>, k: nat, key: EventKey) {
    exists j, x :: 0 <= j < |ds| && j != k && x in ds[j].sources && x.event.key == key
  }

  /** Some other draft holds the key. */
  ghost predicate InOtherDraft(ds: seq<Declaration>, k: nat, key: EventKey) {
    exists j, x :: 0 <= j < |ds| && j != k && !ds[j].filed && x in ds[j].sources && x.event.key == key
  }

  /** The events no other declaration holds, in the order generated. */
  ghost function Left(events: seq<Event>, ds: seq<Declaration>, k: nat): seq<Event> {
    if events == [] then []
    else (if Elsewhere(ds, k, events[0].key) then [] else [events[0]]) + Left(events[1..], ds, k)
  }

  /** Turnover of a box with its adjustment. */
  ghost function BoxAmount(events: seq<Event>, ds: seq<Declaration>, k: nat, adjustments: map<Category, int>,
                           category: Category): int
  {
    AmountIn(Left(events, ds, k), category) + if category in adjustments then adjustments[category] else 0
  }

  ghost predicate NoneNegative(events: seq<Event>, ds: seq<Declaration>, k: nat, adjustments: map<Category, int>) {
    forall c: Category :: BoxAmount(events, ds, k, adjustments, c) >= 0
  }

  lemma ClaimsAre(ds: seq<Declaration>, k: nat, key: EventKey)
    ensures Claimed(ds, k, key) <==> Elsewhere(ds, k, key)
    ensures ClaimedByDraft(ds, k, key) <==> InOtherDraft(ds, k, key)
  {
    if Claimed(ds, k, key) {
      var j :| 0 <= j < |ds| && j != k && Holds(ds[j], key);
      var x :| x in ds[j].sources && x.event.key == key;
    }
    if ClaimedByDraft(ds, k, key) {
      var j :| 0 <= j < |ds| && j != k && Holds(ds[j], key) && !ds[j].filed;
      var x :| x in ds[j].sources && x.event.key == key;
    }
    if Elsewhere(ds, k, key) {
      var j, x :| 0 <= j < |ds| && j != k && x in ds[j].sources && x.event.key == key;
      assert Holds(ds[j], key);
    }
    if InOtherDraft(ds, k, key) {
      var j, x :| 0 <= j < |ds| && j != k && !ds[j].filed && x in ds[j].sources && x.event.key == key;
      assert Holds(ds[j], key);
    }
  }

  lemma {:induction false} EvidenceIs(events: seq<Event>, ds: seq<Declaration>, k: nat, dateFrom: int)
    ensures var r, left := Evidence(events, ds, k, dateFrom), Left(events, ds, k);
      && |r| == |left|
      && (forall i | 0 <= i < |r| :: r[i].event == left[i] && (r[i].prior <==> left[i].date < dateFrom))
  {
    hide Elsewhere, Claimed;
    if events != [] {
      ClaimsAre(ds, k, events[0].key);
      EvidenceIs(events[1..], ds, k, dateFrom);
    }
  }

  lemma {:induction false} TurnoverIs(sources: seq<Source>, events: seq<Event>, category: Category)
    requires |sources| == |events| && forall i | 0 <= i < |events| :: sources[i].event == events[i]
    ensures Turnover(sources, category) == AmountIn(events, category)
  {
    if sources != [] {
      TurnoverIs(sources[1..], events[1..], category);
    }
  }

  lemma {:induction false} LeftMembers(events: seq<Event>, ds: seq<Declaration>, k: nat)
    ensures forall e :: e in Left(events, ds, k) <==> e in events && !Elsewhere(ds, k, e.key)
  {
    hide Elsewhere;
    if events != [] {
      assert events == [events[0]] + events[1..];
      LeftMembers(events[1..], ds, k);
    }
  }

  /**
   A filing succeeds exactly when the declaration is a draft, tracking has
   started, no mandate or other finding stands in the way, no generated event
   is held by another draft, every event left to it has a proved method, and
   no box with its adjustment is negative.
   */
  lemma FilingSucceedsExactly(s: LedgerState, id: int, books: Recognition.Books, review: Review)
    ensures var ds, k := s.declarations, Find(s.declarations, id);
      Step(s, File(id, books, review)).1 == Done <==>
        && k < |ds| && !ds[k].filed && s.trackingStart.Some? && !review.mandateBlocked && !review.otherAnomaly
        && var events := Recognition.RecognitionEvents(books, s.trackingStart.value, ds[k].dateTo);
           && (forall e | e in events :: !InOtherDraft(ds, k, e.key))
           && (forall e | e in events && !Elsewhere(ds, k, e.key) :: e.methodKnown)
           && NoneNegative(events, ds, k, ds[k].adjustments)
  {
    hide Recognition.RecognitionEvents, Claimed, ClaimedByDraft, Elsewhere, InOtherDraft;
    var ds, k := s.declarations, Find(s.declarations, id);
    if MayCompute(s, k, review) {
      var events := Generated(s, k, books);
      FindingsAre(events, ds, k, ds[k].dateFrom, review);
      hide Anomalous, Evidence, BoxAmount;
    }
  }

  lemma FindingsAre(events: seq<Event>, ds: seq<Declaration>, k: nat, dateFrom: int, review: Review)
    requires k < |ds|
    ensures !Anomalous(events, ds, k, Evidence(events, ds, k, dateFrom), review) <==>
      && !review.otherAnomaly
      && (forall e | e in events :: !InOtherDraft(ds, k, e.key))
      && (forall e | e in events && !Elsewhere(ds, k, e.key) :: e.methodKnown)
      && NoneNegative(events, ds, k, ds[k].adjustments)
  {
    hide Claimed, ClaimedByDraft, Elsewhere, InOtherDraft, Evidence, Turnover;
    var sources, left := Evidence(events, ds, k, dateFrom), Left(events, ds, k);
    EvidenceIs(events, ds, k, dateFrom);
    LeftMembers(events, ds, k);
    forall key ensures ClaimedByDraft(ds, k, key) <==> InOtherDraft(ds, k, key) {
      ClaimsAre(ds, k, key);
    }
    forall c: Category ensures Turnover(sources, c) == AmountIn(left, c) {
      TurnoverIs(sources, left, c);
    }
    forall e | e in left && !e.methodKnown ensures exists x | x in sources :: !x.event.methodKnown {
      var i :| 0 <= i < |left| && left[i] == e;
      assert sources[i] in sources;
    }
    forall x | x in sources && !x.event.methodKnown ensures exists e | e in left :: !e.methodKnown {
      var i :| 0 <= i < |sources| && sources[i] == x;
      assert left[i] in left;
    }
    assert NegativeBox(ds[k], sources)
        <==> exists c: Category :: BoxAmount(events, ds, k, ds[k].adjustments, c) < 0 by {
      forall c: Category
        ensures BoxAmount(events, ds, k, ds[k].adjustments, c) == Turnover(sources, c) + AdjustmentOf(ds[k], c)
      {
      }
      hide BoxAmount, AdjustmentOf;
    }
    assert (exists x | x in sources :: !x.event.methodKnown) <==>
           (exists e | e in events :: !Elsewhere(ds, k, e.key) && !e.methodKnown);
  }

  /**
   A filed declaration holds exactly the events left to it, marked by whether they precede
   its period, and closes the horizon.
   */
  lemma FilingHolds(s: LedgerState, id: int, books: Recognition.Books, review: Review)
    requires Step(s, File(id, books, review)).1 == Done
    ensures var k, s' := Find(s.declarations, id), Step(s, File(id, books, review)).0;
      && k < |s.declarations| && s.trackingStart.Some? && |s'.declarations| == |s.declarations|
      && (forall j | 0 <= j < |s.declarations| && j != k :: s'.declarations[j] == s.declarations[j])
      && var d, d' := s.declarations[k], s'.declarations[k];
         var left := Left(Recognition.RecognitionEvents(books, s.trackingStart.value, d.dateTo), s.declarations, k);
         && d'.filed && !d'.hasReason && !d'.blocking
         && d'.id == d.id && d'.dateFrom == d.dateFrom && d'.dateTo == d.dateTo && d'.adjustments == d.adjustments
         && |d'.sources| == |left|
         && (forall i | 0 <= i < |left| ::
               d'.sources[i].event == left[i] && (d'.sources[i].prior <==> left[i].date < d.dateFrom))
         && s'.horizon.Some? && s'.horizon.value >= d.dateTo
         && (s'.horizon == s.horizon || s'.horizon.value == d.dateTo)
  {
    hide Recognition.RecognitionEvents, Anomalous, Left, Evidence;
    var k := Find(s.declarations, id);
    EvidenceIs(Generated(s, k, books), s.declarations, k, s.declarations[k].dateFrom);
  }

  /** An adjustment of one box decides a filing that nothing else stands in the way of. */
  lemma AdjustmentDecidesFiling(s: LedgerState, id: int, c: Category, amount: int, books: Recognition.Books,
                                review: Review)
    requires var k, ds := Find(s.declarations, id), s.declarations;
      && k < |ds| && !ds[k].filed && s.trackingStart.Some? && !review.mandateBlocked && !review.otherAnomaly
      && var events := Recognition.RecognitionEvents(books, s.trackingStart.value, ds[k].dateTo);
         && (forall e | e in events :: !InOtherDraft(ds, k, e.key))
         && (forall e | e in events && !Elsewhere(ds, k, e.key) :: e.methodKnown)
    ensures var k, ds := Find(s.declarations, id), s.declarations;
      var events := Recognition.RecognitionEvents(books, s.trackingStart.value, ds[k].dateTo);
      Step(Step(s, Adjust(id, c, amount, true)).0, File(id, books, review)).1 == Done <==>
        NoneNegative(events, ds, k, ds[k].adjustments[c := amount])
  {
    hide Recognition.RecognitionEvents, Elsewhere, InOtherDraft;
    var k, ds := Find(s.declarations, id), s.declarations;
    var adjusted := ds[k].(adjustments := ds[k].adjustments[c := amount]);
    var s' := Step(s, Adjust(id, c, amount, true)).0;
    assert s'.declarations == ds[k := adjusted];
    SameFind(ds, k, adjusted, id);
    var events := Recognition.RecognitionEvents(books, s.trackingStart.value, ds[k].dateTo);
    forall key ensures Elsewhere(ds[k := adjusted], k, key) <==> Elsewhere(ds, k, key) {
      SameOthers(ds, k, adjusted, key);
    }
    forall key ensures InOtherDraft(ds[k := adjusted], k, key) <==> InOtherDraft(ds, k, key) {
      SameOthers(ds, k, adjusted, key);
    }
    SameLeft(events, ds, ds[k := adjusted], k);
    hide Step, Left;
    FilingSucceedsExactly(s', id, books, review);
    var ds' := s'.declarations;
    assert forall e | e in events :: !InOtherDraft(ds', k, e.key);
    assert forall e | e in events && !Elsewhere(ds', k, e.key) :: e.methodKnown;
    SameBoxes(events, ds, ds', k, ds'[k].adjustments);
  }

  lemma SameBoxes(events: seq<Event>, a: seq<Declaration>, b: seq<Declaration>, k: nat, adjustments: map<Category, int>)
    requires Left(events, a, k) == Left(events, b, k)
    ensures NoneNegative(events, a, k, adjustments) <==> NoneNegative(events, b, k, adjustments)
  {
    hide Left;
    forall c: Category ensures BoxAmount(events, a, k, adjustments, c) == BoxAmount(events, b, k, adjustments, c) {
    }
  }

  lemma {:induction false} SameFind(ds: seq<Declaration>, k: nat, d: Declaration, id: int)
    requires k < |ds| && Find(ds, id) == k && d.id == ds[k].id
    ensures Find(ds[k := d], id) == k
  {
    if k > 0 {
      assert ds[k := d][1..] == ds[1..][k - 1 := d];
      SameFind(ds[1..], k - 1, d, id);
    }
  }

  lemma SameOthers(ds: seq<Declaration>, k: nat, d: Declaration, key: EventKey)
    requires k < |ds|
    ensures Elsewhere(ds[k := d], k, key) <==> Elsewhere(ds, k, key)
    ensures InOtherDraft(ds[k := d], k, key) <==> InOtherDraft(ds, k, key)
  {
    var r := ds[k := d];
    forall j, x | 0 <= j < |ds| && j != k && x in ds[j].sources ensures x in r[j].sources {}
    forall j, x | 0 <= j < |r| && j != k && x in r[j].sources ensures x in ds[j].sources {}
  }

  lemma {:induction false} SameLeft(events: seq<Event>, a: seq<Declaration>, b: seq<Declaration>, k: nat)
    requires forall key :: Elsewhere(a, k, key) <==> Elsewhere(b, k, key)
    ensures Left(events, a, k) == Left(events, b, k)
  {
    hide Elsewhere;
    if events != [] {
      SameLeft(events[1..], a, b, k);
    }
  }
}
