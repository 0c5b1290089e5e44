/**
 Cash-basis journal lines as recognised events, and the correction that makes
 the last line of a settled invoice absorb the rounding of the ones before it.
 */
module CashBasis {
  import opened Sorting
  import opened Events

  datatype LineKind =
    | CashBasisMove
    | PosSessionMove
    | ExigibleMove(isInvoice: bool)
    | OtherMove

  /** A journal line; `amount` is minus its balance. `originId` is its move unless it is a cash-basis move. */
  datatype JournalLine = JournalLine(
    id: int, date: int, kind: LineKind, originId: int, categories: seq<Category>, amount: int,
    posted: bool, methodKnown: bool)

  /** What the correction reads from the origin move. */
  datatype Origin = Origin(isInvoice: bool, settled: bool, totals: map<Category, int>)

  type Origins = map<int, Origin>

  predicate Recognises(line: JournalLine) {
    line.posted && (line.kind == CashBasisMove || line.kind == ExigibleMove(false))
  }

  function EventFor(line: JournalLine, category: Category): Event {
    Event(CabaKey(line.id, line.originId, category), line.date, category, line.amount, line.methodKnown)
  }

  function EventsOf(line: JournalLine, categories: seq<Category>): (r: seq<Event>)
    ensures |r| == |categories| && forall i | 0 <= i < |r| :: r[i] == EventFor(line, categories[i])
  {
    seq(|categories|, i requires 0 <= i < |categories| => EventFor(line, categories[i]))
  }

  predicate InWindow(line: JournalLine, dateFrom: int, dateTo: int) {
    dateFrom <= line.date <= dateTo && Recognises(line)
  }

  function CabaEvents(lines: seq<JournalLine>, dateFrom: int, dateTo: int): (r: seq<Event>)
    ensures forall e | e in r :: exists l | l in lines ::
      InWindow(l, dateFrom, dateTo) && e.category in l.categories && e == EventFor(l, e.category)
  {
    if lines == [] then []
    else (if InWindow(lines[0], dateFrom, dateTo) then EventsOf(lines[0], lines[0].categories) else [])
         + CabaEvents(lines[1..], dateFrom, dateTo)
  }

  /** Cash-basis lines of one origin and category, posted or not. */
  predicate OfGroup(line: JournalLine, originId: int, category: Category) {
    line.kind == CashBasisMove && line.originId == originId && category in line.categories
  }

  /** The posted ones. */
  predicate InGroup(line: JournalLine, originId: int, category: Category) {
    line.posted && OfGroup(line, originId, category)
  }

  /** A later line holds the correction back, even one that is not posted. */
  predicate HasLater(lines: seq<JournalLine>, originId: int, category: Category, dateTo: int) {
    exists l | l in lines :: OfGroup(l, originId, category) && l.date > dateTo
  }

  /** Sum of the group's lines through `dateTo`, leaving one line out. */
  function SumOthers(lines: seq<JournalLine>, originId: int, category: Category, dateTo: int, except: int): int {
    if lines == [] then 0
    else (if InGroup(lines[0], originId, category) && lines[0].date <= dateTo && lines[0].id != except
          then lines[0].amount else 0)
         + SumOthers(lines[1..], originId, category, dateTo, except)
  }

  predicate SettledInvoice(origins: Origins, originId: int, category: Category) {
    && originId in origins
    && origins[originId].isInvoice
    && origins[originId].settled
    && category in origins[originId].totals
  }

  predicate SameGroup(a: EventKey, b: EventKey) {
    a.CabaKey? && b.CabaKey? && a.originId == b.originId && a.category == b.category
  }

  function Order(e: Event): Key
    requires e.key.CabaKey?
  {
    (e.date, e.key.lineId, 0)
  }

  predicate LastOfGroup(events: seq<Event>, i: nat)
    requires i < |events| && events[i].key.CabaKey?
  {
    forall j | 0 <= j < |events| && SameGroup(events[i].key, events[j].key) ::
        !KeyLess(Order(events[i]), Order(events[j]))
  }

  /** The amount an event carries after the correction. */
  function Corrected(events: seq<Event>, i: nat, lines: seq<JournalLine>, origins: Origins, dateTo: int): int
    requires i < |events|
  {
    var e := events[i];
    if e.key.CabaKey? && SettledInvoice(origins, e.key.originId, e.key.category)
       && !HasLater(lines, e.key.originId, e.key.category, dateTo) && LastOfGroup(events, i)
    then origins[e.key.originId].totals[e.key.category]
         - SumOthers(lines, e.key.originId, e.key.category, dateTo, e.key.lineId)
    else e.amount
  }

  // ------------------------------------------------------------ the loop

  method FindLast(events: seq<Event>, g: nat) returns (last: nat)
    requires g < |events| && events[g].key.CabaKey?
    ensures last < |events| && SameGroup(events[g].key, events[last].key) && LastOfGroup(events, last)
  {
    last := g;
    for j := 0 to |events|
      invariant last < |events| && SameGroup(events[g].key, events[last].key)
      invariant !KeyLess(Order(events[last]), Order(events[g]))
      invariant forall k | 0 <= k < j && SameGroup(events[g].key, events[k].key) ::
        !KeyLess(Order(events[last]), Order(events[k]))
    {
      if SameGroup(events[g].key, events[j].key)
         && (events[last].date < events[j].date
             || (events[last].date == events[j].date && events[last].key.lineId < events[j].key.lineId)) {
        last := j;
      }
    }
  }

  /** Every line yields one event per category, so no two events of a group tie. */
  ghost predicate NoTies(events: seq<Event>) {
    forall i, j | 0 <= i < j < |events| && SameGroup(events[i].key, events[j].key) ::
      events[i].key.lineId != events[j].key.lineId
  }

  method NormalizeCabaEvents(events: seq<Event>, lines: seq<JournalLine>, origins: Origins, dateTo: int)
    returns (result: seq<Event>)
    requires NoTies(events)
    ensures |result| == |events|
    ensures forall i | 0 <= i < |events| ::
      result[i] == events[i].(amount := Corrected(events, i, lines, origins, dateTo))
  {
    result := events;
    var groups: set<(int, Category)> := {};
    for g := 0 to |events|
      invariant |result| == |events|
      invariant forall i | 0 <= i < g && events[i].key.CabaKey? ::
        (events[i].key.originId, events[i].key.category) in groups
      invariant forall i | 0 <= i < |events| ::
        result[i] == events[i].(amount :=
          if events[i].key.CabaKey? && (events[i].key.originId, events[i].key.category) in groups
          then Corrected(events, i, lines, origins, dateTo) else events[i].amount)
    {
      var key := events[g].key;
      if key.CabaKey? && (key.originId, key.category) !in groups {
        groups := groups + {(key.originId, key.category)};
        var last := FindLast(events, g);
        forall i | 0 <= i < |events| && i != last && SameGroup(key, events[i].key) ensures !LastOfGroup(events, i) {
          assert events[i].key.lineId != events[last].key.lineId;
          assert !KeyLess(Order(events[last]), Order(events[i])) && SameGroup(events[i].key, events[last].key);
        }
        if SettledInvoice(origins, key.originId, key.category) && !HasLater(lines, key.originId, key.category, dateTo) {
          var target := origins[key.originId].totals[key.category];
          var previous := SumOthers(lines, key.originId, key.category, dateTo, events[last].key.lineId);
          result := result[last := events[last].(amount := target - previous)];
        }
      }
    }
  }

  // ------------------------------------------------------------ one amount per line, whatever the window

  ghost predicate DistinctLines(lines: seq<JournalLine>) {
    forall i, j | 0 <= i < j < |lines| :: lines[i].id != lines[j].id
  }

  /** Origins of lines recognised directly are their own moves, which are not invoices. */
  ghost predicate DirectOriginsAreNotInvoices(lines: seq<JournalLine>, origins: Origins) {
    forall l | l in lines && l.kind == ExigibleMove(false) ::
      l.originId !in origins || !origins[l.originId].isInvoice
  }

  /** Cash-basis lines are posted, as their moves are when a payment creates them. */
  ghost predicate CashBasisPosted(lines: seq<JournalLine>) {
    forall l | l in lines && l.kind == CashBasisMove :: l.posted
  }

  ghost predicate SoundJournal(lines: seq<JournalLine>, origins: Origins) {
    DirectOriginsAreNotInvoices(lines, origins) && CashBasisPosted(lines)
  }

  function LineOrder(l: JournalLine): Key {
    (l.date, l.id, 0)
  }

  ghost predicate LastLine(lines: seq<JournalLine>, line: JournalLine, category: Category) {
    forall l | l in lines && InGroup(l, line.originId, category) :: !KeyLess(LineOrder(line), LineOrder(l))
  }

  /** What a line recognises in the end: the last line of a settled invoice takes the rest of its total. */
  ghost function FinalAmount(lines: seq<JournalLine>, origins: Origins, line: JournalLine, category: Category): int {
    if line.kind == CashBasisMove && SettledInvoice(origins, line.originId, category) && LastLine(lines, line, category)
    then origins[line.originId].totals[category] - SumOthers(lines, line.originId, category, line.date, line.id)
    else line.amount
  }

  // ------------------------------------------------------------ a journal that grows

  /** The line takes the correction of its group. */
  ghost predicate TakesRest(lines: seq<JournalLine>, origins: Origins, l: JournalLine, c: Category) {
    SettledInvoice(origins, l.originId, c) && LastLine(lines, l, c)
  }

  /** The group's lines through this one add up to the category total as they are. */
  predicate Complete(lines: seq<JournalLine>, origins: Origins, l: JournalLine, c: Category)
    requires SettledInvoice(origins, l.originId, c)
  {
    SumOthers(lines, l.originId, c, l.date, l.id) + l.amount == origins[l.originId].totals[c]
  }

  /**
   What has to hold so that a line keeps what it recognised when `added` is
   recorded: a line that starts or stops taking the correction had nothing to
   correct, and one that goes on taking it sees its group and the category
   total grow by the same amount.
   */
  ghost predicate KeepsLine(before: seq<JournalLine>, origins: Origins, added: seq<JournalLine>, originsAfter: Origins,
                            l: JournalLine, c: Category)
  {
    var was, becomes := TakesRest(before, origins, l, c), TakesRest(before + added, originsAfter, l, c);
    && (was && !becomes ==> Complete(before, origins, l, c))
    && (!was && becomes ==> Complete(before + added, originsAfter, l, c))
    && (was && becomes ==>
          SumOthers(added, l.originId, c, l.date, l.id)
              == originsAfter[l.originId].totals[c] - origins[l.originId].totals[c])
  }

  /** A journal to which lines were only added, each earlier line keeping what it recognised. */
  ghost predicate Grew(before: seq<JournalLine>, origins: Origins, after: seq<JournalLine>, originsAfter: Origins) {
    && before <= after
    && forall l, c | l in before && InGroup(l, l.originId, c) ::
       KeepsLine(before, origins, after[|before|..], originsAfter, l, c)
  }

  lemma {:induction false} SumOthersOfConcat(a: seq<JournalLine>, b: seq<JournalLine>, o: int, c: Category, d: int,
                                             except: int)
    ensures SumOthers(a + b, o, c, d, except) == SumOthers(a, o, c, d, except) + SumOthers(b, o, c, d, except)
  {
    if a == [] {
      assert a + b == b;
    } else {
      assert (a + b)[1..] == a[1..] + b;
      SumOthersOfConcat(a[1..], b, o, c, d, except);
    }
  }

  /** Exactly under that condition the amount a line recognises in the end stays. */
  lemma GrowthKeepsFinalAmountExactly(before: seq<JournalLine>, origins: Origins, added: seq<JournalLine>,
                                      originsAfter: Origins,
                                      l: JournalLine, c: Category)
    requires InGroup(l, l.originId, c)
    ensures FinalAmount(before + added, originsAfter, l, c) == FinalAmount(before, origins, l, c)
      <==> KeepsLine(before, origins, added, originsAfter, l, c)
  {
    hide SumOthers, LastLine;
    SumOthersOfConcat(before, added, l.originId, c, l.date, l.id);
  }

  /** So in a journal that grew every line keeps it. */
  lemma GrowthKeepsFinalAmount(before: seq<JournalLine>, origins: Origins, after: seq<JournalLine>,
                               originsAfter: Origins,
                               l: JournalLine, c: Category)
    requires Grew(before, origins, after, originsAfter) && l in before && l.posted && c in l.categories
    ensures FinalAmount(after, originsAfter, l, c) == FinalAmount(before, origins, l, c)
  {
    if l.kind == CashBasisMove {
      assert InGroup(l, l.originId, c) && after == before + after[|before|..];
      GrowthKeepsFinalAmountExactly(before, origins, after[|before|..], originsAfter, l, c);
    }
  }

  /**
   An invoice settled before keeps a line exactly when the line took no correction, the new
   lines come to nothing, or there was nothing to correct.
   */
  lemma FurtherLineKeepsExactly(before: seq<JournalLine>, origins: Origins, added: seq<JournalLine>,
                                originsAfter: Origins,
                                l: JournalLine, c: Category)
    requires l in before && InGroup(l, l.originId, c) && SettledInvoice(origins, l.originId, c)
    requires l.originId in originsAfter && originsAfter[l.originId] == origins[l.originId]
    ensures FinalAmount(before + added, originsAfter, l, c) == FinalAmount(before, origins, l, c)
      <==> !LastLine(before, l, c)
           || if LastLine(before + added, l, c) then SumOthers(added, l.originId, c, l.date, l.id) == 0
              else Complete(before, origins, l, c)
  {
    hide SumOthers;
    GrowthKeepsFinalAmountExactly(before, origins, added, originsAfter, l, c);
    assert forall x | x in before :: x in before + added;
  }

  /** An invoice settled since keeps a line exactly when a later line settles it or there is nothing to correct. */
  lemma LateSettlementKeepsExactly(before: seq<JournalLine>, origins: Origins, added: seq<JournalLine>,
                                   originsAfter: Origins,
                                   l: JournalLine, c: Category)
    requires InGroup(l, l.originId, c) && !SettledInvoice(origins, l.originId, c)
      && SettledInvoice(originsAfter, l.originId, c)
    ensures FinalAmount(before + added, originsAfter, l, c) == FinalAmount(before, origins, l, c)
      <==> !LastLine(before + added, l, c) || Complete(before + added, originsAfter, l, c)
  {
    GrowthKeepsFinalAmountExactly(before, origins, added, originsAfter, l, c);
  }

  function Payment(id: int, date: int, amount: int): JournalLine {
    JournalLine(id, date, CashBasisMove, 7, [Bnc], amount, true, true)
  }

  function Invoice(settled: bool, total: int): Origins {
    map[7 := Origin(true, settled, map[Bnc := total])]
  }

  /** A line recorded late with an earlier date settles the invoice: the first line moves from 33 to 34 cents. */
  lemma EarlierDatedLineShiftsAmount()
    ensures var first, late := Payment(1, 10, 33), Payment(2, 9, 33);
      FinalAmount([first], Invoice(false, 67), first, Bnc) == 33
      && FinalAmount([first, late], Invoice(true, 67), first, Bnc) == 34
  {
    var first, late := Payment(1, 10, 33), Payment(2, 9, 33);
    assert [first, late][1..] == [late] && [late][1..] == [];
    assert SumOthers([late], 7, Bnc, 10, 1) == 33;
    assert SumOthers([first, late], 7, Bnc, 10, 1) == 33;
    assert LastLine([first, late], first, Bnc);
  }

  /** A settled invoice gets a further line: the line that took the correction goes back from 51 to 50 cents. */
  lemma FurtherLineShiftsAmount()
    ensures var first, further := Payment(1, 10, 50), Payment(2, 20, 1);
      FinalAmount([first], Invoice(true, 51), first, Bnc) == 51
      && FinalAmount([first, further], Invoice(true, 51), first, Bnc) == 50
  {
    var first, further := Payment(1, 10, 50), Payment(2, 20, 1);
    assert [first][1..] == [] && SumOthers([first], 7, Bnc, 10, 1) == 0;
    assert LastLine([first], first, Bnc);
    assert [first, further][1] in [first, further] && KeyLess(LineOrder(first), LineOrder(further));
    assert !LastLine([first, further], first, Bnc);
  }

  lemma {:induction false} SumOthersThrough(lines: seq<JournalLine>, originId: int, category: Category,
                                            d: int, e: int, except: int)
    requires forall l | l in lines && InGroup(l, originId, category) :: l.date <= d && l.date <= e
    ensures SumOthers(lines, originId, category, d, except) == SumOthers(lines, originId, category, e, except)
  {
    if lines != [] {
      assert lines[0] in lines;
      SumOthersThrough(lines[1..], originId, category, d, e, except);
    }
  }

  lemma {:induction false} EveryLineHasItsEvent(lines: seq<JournalLine>, line: JournalLine, category: Category,
                                                dateFrom: int, dateTo: int)
    requires line in lines && InWindow(line, dateFrom, dateTo) && category in line.categories
    ensures EventFor(line, category) in CabaEvents(lines, dateFrom, dateTo)
  {
    if lines[0] == line {
      var k :| 0 <= k < |line.categories| && line.categories[k] == category;
      assert EventsOf(line, line.categories)[k] in CabaEvents(lines, dateFrom, dateTo);
    } else {
      EveryLineHasItsEvent(lines[1..], line, category, dateFrom, dateTo);
    }
  }

  /** The line takes the correction, but a later line keeps the window from making it. */
  ghost predicate HeldBack(lines: seq<JournalLine>, origins: Origins, l: JournalLine, c: Category, dateTo: int) {
    TakesRest(lines, origins, l, c) && HasLater(lines, l.originId, c, dateTo)
  }

  /**
   In a window that recognises the line the corrected event carries the line's
   final amount exactly when nothing later holds its correction back, or there
   is nothing to correct.
   */
  lemma CorrectedIsFinalExactly(lines: seq<JournalLine>, origins: Origins, dateFrom: int, dateTo: int, i: nat,
                                line: JournalLine)
    requires DistinctLines(lines) && DirectOriginsAreNotInvoices(lines, origins)
    requires i < |CabaEvents(lines, dateFrom, dateTo)| && line in lines && InWindow(line, dateFrom, dateTo)
    requires var e := CabaEvents(lines, dateFrom, dateTo)[i];
      e.category in line.categories && e == EventFor(line, e.category)
    ensures var events := CabaEvents(lines, dateFrom, dateTo);
      Corrected(events, i, lines, origins, dateTo) == FinalAmount(lines, origins, line, events[i].category)
      <==> (HeldBack(lines, origins, line, events[i].category, dateTo) ==>
              Complete(lines, origins, line, events[i].category))
  {
    var events := CabaEvents(lines, dateFrom, dateTo);
    var o, c := line.originId, events[i].category;
    if SettledInvoice(origins, o, c) && !HasLater(lines, o, c, dateTo) {
      assert InGroup(line, o, c);
      LastInWindowIsLast(lines, origins, dateFrom, dateTo, i, line);
      if LastLine(lines, line, c) {
        SumOthersThrough(lines, o, c, dateTo, line.date, line.id);
      }
    }
  }

  /** So with every cash-basis line posted it does in every window. */
  lemma CorrectedIsFinal(lines: seq<JournalLine>, origins: Origins, dateFrom: int, dateTo: int, i: nat,
                         line: JournalLine)
    requires DistinctLines(lines) && SoundJournal(lines, origins)
    requires i < |CabaEvents(lines, dateFrom, dateTo)| && line in lines && InWindow(line, dateFrom, dateTo)
    requires var e := CabaEvents(lines, dateFrom, dateTo)[i];
      e.category in line.categories && e == EventFor(line, e.category)
    ensures var events := CabaEvents(lines, dateFrom, dateTo);
      Corrected(events, i, lines, origins, dateTo) == FinalAmount(lines, origins, line, events[i].category)
  {
    hide CabaEvents, Corrected, FinalAmount, Complete;
    CorrectedIsFinalExactly(lines, origins, dateFrom, dateTo, i, line);
    var o, c := line.originId, CabaEvents(lines, dateFrom, dateTo)[i].category;
    if SettledInvoice(origins, o, c) && HasLater(lines, o, c, dateTo) {
      var l :| l in lines && OfGroup(l, o, c) && l.date > dateTo;
      assert KeyLess(LineOrder(line), LineOrder(l));
      assert !LastLine(lines, line, c);
    }
  }

  lemma FirstRecognised(first: JournalLine, second: JournalLine, a: int, b: int)
    requires InWindow(first, a, b) && first.categories == [Bnc] && !second.posted
    ensures CabaEvents([first, second], a, b) == [EventFor(first, Bnc)]
  {
    assert [second][1..] == [] && [first, second][1..] == [second];
    assert CabaEvents([second], a, b) == CabaEvents([], a, b) == [];
    assert EventsOf(first, [Bnc]) == [EventFor(first, Bnc)];
  }

  /** An unposted line of a later day holds the correction back from every window that ends before it. */
  lemma UnpostedLineHoldsBack()
    ensures var paid, unposted := Payment(1, 10, 50), Payment(2, 20, 0).(posted := false);
      var lines, origins := [paid, unposted], Invoice(true, 51);
      && Corrected(CabaEvents(lines, 1, 15), 0, lines, origins, 15) == 50
      && Corrected(CabaEvents(lines, 1, 25), 0, lines, origins, 25) == 51
  {
    var paid, unposted := Payment(1, 10, 50), Payment(2, 20, 0).(posted := false);
    var lines := [paid, unposted];
    assert lines[1..] == [unposted] && [unposted][1..] == [] && lines[1] in lines;
    FirstRecognised(paid, unposted, 1, 15);
    FirstRecognised(paid, unposted, 1, 25);
    assert HasLater(lines, 7, Bnc, 15) && !HasLater(lines, 7, Bnc, 25);
    assert SumOthers([unposted], 7, Bnc, 25, 1) == 0 && SumOthers(lines, 7, Bnc, 25, 1) == 0;
  }

  lemma LastInWindowIsLast(lines: seq<JournalLine>, origins: Origins, dateFrom: int, dateTo: int, i: nat,
                           line: JournalLine)
    requires DirectOriginsAreNotInvoices(lines, origins)
    requires i < |CabaEvents(lines, dateFrom, dateTo)| && line in lines && InWindow(line, dateFrom, dateTo)
    requires var e := CabaEvents(lines, dateFrom, dateTo)[i];
      e.category in line.categories && e == EventFor(line, e.category)
    requires var c := CabaEvents(lines, dateFrom, dateTo)[i].category;
      SettledInvoice(origins, line.originId, c) && !HasLater(lines, line.originId, c, dateTo)
    ensures var events := CabaEvents(lines, dateFrom, dateTo);
      LastOfGroup(events, i) <==> LastLine(lines, line, events[i].category)
  {
    var events := CabaEvents(lines, dateFrom, dateTo);
    var c := events[i].category;
    if LastLine(lines, line, c) {
      forall j | 0 <= j < |events| && SameGroup(events[i].key, events[j].key)
        ensures !KeyLess(Order(events[i]), Order(events[j]))
      {
        assert events[j] in events;
        var l :| l in lines && InWindow(l, dateFrom, dateTo) && events[j].category in l.categories
                 && events[j] == EventFor(l, events[j].category);
        assert InGroup(l, line.originId, c);
      }
    }
    if LastOfGroup(events, i) {
      forall l | l in lines && InGroup(l, line.originId, c) ensures !KeyLess(LineOrder(line), LineOrder(l)) {
        if dateFrom <= l.date {
          assert l.date <= dateTo;
          EveryLineHasItsEvent(lines, l, c, dateFrom, dateTo);
          var j :| 0 <= j < |events| && events[j] == EventFor(l, c);
          assert SameGroup(events[i].key, events[j].key);
        }
      }
    }
  }

  /** Sum of the final amounts of a group. */
  ghost function FinalSum(some: seq<JournalLine>, lines: seq<JournalLine>, origins: Origins, originId: int,
                          category: Category): int {
    if some == [] then 0
    else (if InGroup(some[0], originId, category) then FinalAmount(lines, origins, some[0], category) else 0)
         + FinalSum(some[1..], lines, origins, originId, category)
  }

  lemma {:induction false} FinalSumIs(some: seq<JournalLine>, lines: seq<JournalLine>, origins: Origins,
                                      last: JournalLine,
                                      category: Category)
    requires DistinctLines(lines) && last in lines && InGroup(last, last.originId, category)
    requires LastLine(lines, last, category) && SettledInvoice(origins, last.originId, category)
    requires DistinctLines(some) && forall l | l in some :: l in lines
    ensures FinalSum(some, lines, origins, last.originId, category)
         == SumOthers(some, last.originId, category, last.date, last.id)
            + if last in some then FinalAmount(lines, origins, last, category) else 0
  {
    if some != [] {
      var l := some[0];
      assert l in some;
      FinalSumIs(some[1..], lines, origins, last, category);
      if l == last {
        assert forall x | x in some[1..] :: x.id != l.id;
      } else {
        var i :| 0 <= i < |lines| && lines[i] == l;
        var j :| 0 <= j < |lines| && lines[j] == last;
        assert l.id != last.id;
        if InGroup(l, last.originId, category) {
          assert KeyLess(LineOrder(l), LineOrder(last));
          assert !LastLine(lines, l, category);
        }
      }
    }
  }

  /** The cash-basis lines of a settled invoice recognise exactly its category total. */
  lemma SettledOriginAddsUp(lines: seq<JournalLine>, origins: Origins, last: JournalLine, category: Category)
    requires DistinctLines(lines) && last in lines && InGroup(last, last.originId, category)
    requires LastLine(lines, last, category) && SettledInvoice(origins, last.originId, category)
    ensures FinalSum(lines, lines, origins, last.originId, category) == origins[last.originId].totals[category]
  {
    FinalSumIs(lines, lines, origins, last, category);
  }
}
