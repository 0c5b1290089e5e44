/**
 The declaration ledger of one company: which declaration claims which
 recognised event, what filing freezes, and the permanent closing horizon.
 An operation that raises leaves the ledger as it was.
 */
module Ledger {
  import opened Common
  import opened Sorting
  import opened Events
  import Periods
  import Recognition

  /** Evidence held by a declaration. */
  datatype Source = Source(event: Event, prior: bool)

  datatype Declaration = Declaration(
    id: int, dateFrom: int, dateTo: int, filed: bool, hasReason: bool,
    sources: seq<Source>, adjustments: map<Category, int>, blocking: bool)

  /** `trackingStart` is the confirmed tracking boundary; `horizon` closes depot sales for good. */
  datatype LedgerState = LedgerState(
    declarations: seq<Declaration>, trackingStart: Option<int>, horizon: Option<int>)

  /** Findings that are not about the events themselves, and unreviewed mandates. */
  datatype Review = Review(otherAnomaly: bool, mandateBlocked: bool)

  datatype Command =
    | Create(newId: int, dateFrom: int, dateTo: int)
    | Move(id: int, dateFrom: int, dateTo: int)
    | Delete(id: int)
    | Adjust(id: int, category: Category, amount: int, reasoned: bool)
    | Compute(id: int, books: Recognition.Books, review: Review)
    | File(id: int, books: Recognition.Books, review: Review)
    | GiveReason(id: int)
    | Reset(id: int)
    | SetHorizon(horizon: Option<int>)
    | SetTracking(start: Option<int>)

  // ------------------------------------------------------------ pieces of an operation

  function PeriodOf(d: Declaration): Periods.Period {
    Periods.Period(d.id, d.dateFrom, d.dateTo)
  }

  function PeriodsOf(ds: seq<Declaration>): (r: seq<Periods.Period>)
    ensures |r| == |ds| && forall i | 0 <= i < |ds| :: r[i] == PeriodOf(ds[i])
  {
    seq(|ds|, i requires 0 <= i < |ds| => PeriodOf(ds[i]))
  }

  function Find(ds: seq<Declaration>, id: int): (k: nat)
    ensures k <= |ds| && (k < |ds| ==> ds[k].id == id)
    ensures forall i | 0 <= i < k :: ds[i].id != id
  {
    if ds == [] || ds[0].id == id then 0 else 1 + Find(ds[1..], id)
  }

  predicate Holds(d: Declaration, key: EventKey) {
    exists s | s in d.sources :: s.event.key == key
  }

  /** Another declaration claims the key. */
  predicate Claimed(ds: seq<Declaration>, k: nat, key: EventKey) {
    exists j | 0 <= j < |ds| && j != k :: Holds(ds[j], key)
  }

  predicate ClaimedByDraft(ds: seq<Declaration>, k: nat, key: EventKey) {
    exists j | 0 <= j < |ds| && j != k :: Holds(ds[j], key) && !ds[j].filed
  }

  /** The evidence a computation creates: every generated event nobody else claims. */
  function Evidence(events: seq<Event>, ds: seq<Declaration>, k: nat, dateFrom: int): seq<Source> {
    if events == [] then []
    else (if Claimed(ds, k, events[0].key) then [] else [Source(events[0], events[0].date < dateFrom)])
         + Evidence(events[1..], ds, k, dateFrom)
  }

  function Turnover(sources: seq<Source>, category: Category): int {
    if sources == [] then 0
    else
      (if sources[0].event.category == category then sources[0].event.amount else 0)
      + Turnover(sources[1..], category)
  }

  function AdjustmentOf(d: Declaration, category: Category): int {
    if category in d.adjustments then d.adjustments[category] else 0
  }

  predicate NegativeBox(d: Declaration, sources: seq<Source>) {
    exists c: Category :: Turnover(sources, c) + AdjustmentOf(d, c) < 0
  }

  predicate Anomalous(events: seq<Event>, ds: seq<Declaration>, k: nat, sources: seq<Source>, review: Review)
    requires k < |ds|
  {
    || review.otherAnomaly
    || (exists e | e in events :: ClaimedByDraft(ds, k, e.key))
    || (exists s | s in sources :: !s.event.methodKnown)
    || NegativeBox(ds[k], sources)
  }

  predicate MayCompute(s: LedgerState, k: nat, review: Review) {
    k < |s.declarations| && !s.declarations[k].filed && s.trackingStart.Some? && !review.mandateBlocked
  }

  function Generated(s: LedgerState, k: nat, books: Recognition.Books): seq<Event>
    requires k < |s.declarations| && s.trackingStart.Some?
  {
    Recognition.RecognitionEvents(books, s.trackingStart.value, s.declarations[k].dateTo)
  }

  function Computed(s: LedgerState, k: nat, books: Recognition.Books, review: Review): Declaration
    requires MayCompute(s, k, review)
  {
    var d := s.declarations[k];
    var events := Generated(s, k, books);
    var sources := Evidence(events, s.declarations, k, d.dateFrom);
    d.(sources := sources, blocking := Anomalous(events, s.declarations, k, sources, review))
  }

  function Replace(s: LedgerState, k: nat, d: Declaration): LedgerState
    requires k < |s.declarations|
  {
    s.(declarations := s.declarations[k := d])
  }

  function Advanced(horizon: Option<int>, date: int): Option<int> {
    if horizon.None? || date > horizon.value then Some(date) else horizon
  }

  /** The company's guard: a set horizon is neither cleared nor moved back. */
  predicate MayMoveHorizon(horizon: Option<int>, to: Option<int>) {
    horizon.Some? ==> to.Some? && to.value >= horizon.value
  }

  // ------------------------------------------------------------ one operation

  ghost function Step(s: LedgerState, c: Command): (r: (LedgerState, Outcome))
    ensures r.1 == Refused ==> r.0 == s
  {
    var ds := s.declarations;
    match c
    case Create(id, dateFrom, dateTo) =>
      if Find(ds, id) == |ds| && Periods.Accepted(PeriodsOf(ds), Periods.Period(id, dateFrom, dateTo))
      then (s.(declarations := ds + [Declaration(id, dateFrom, dateTo, false, false, [], map[], false)]), Done)
      else (s, Refused)
    case Move(id, dateFrom, dateTo) =>
      var k := Find(ds, id);
      if k < |ds| && !ds[k].filed && Periods.Accepted(PeriodsOf(ds), Periods.Period(id, dateFrom, dateTo))
      then (Replace(s, k, ds[k].(dateFrom := dateFrom, dateTo := dateTo)), Done)
      else (s, Refused)
    case Delete(id) =>
      var k := Find(ds, id);
      if k < |ds| && !ds[k].filed then (s.(declarations := ds[..k] + ds[k + 1..]), Done) else (s, Refused)
    case Adjust(id, category, amount, reasoned) =>
      var k := Find(ds, id);
      if k < |ds| && !ds[k].filed && (amount != 0 ==> reasoned)
      then (Replace(s, k, ds[k].(adjustments := ds[k].adjustments[category := amount])), Done)
      else (s, Refused)
    case Compute(id, books, review) =>
      var k := Find(ds, id);
      if MayCompute(s, k, review) then (Replace(s, k, Computed(s, k, books, review)), Done) else (s, Refused)
    case File(id, books, review) =>
      var k := Find(ds, id);
      if MayCompute(s, k, review) && !Computed(s, k, books, review).blocking
      then (Replace(s, k, Computed(s, k, books, review).(filed := true, hasReason := false))
            .(horizon := Advanced(s.horizon, ds[k].dateTo)), Done)
      else (s, Refused)
    case GiveReason(id) =>
      var k := Find(ds, id);
      if k < |ds| then (Replace(s, k, ds[k].(hasReason := true)), Done) else (s, Refused)
    case Reset(id) =>
      var k := Find(ds, id);
      if k == |ds| || (ds[k].filed && !ds[k].hasReason) then (s, Refused)
      else (Replace(s, k, ds[k].(filed := false)), Done)
    case SetHorizon(horizon) =>
      if MayMoveHorizon(s.horizon, horizon) then (s.(horizon := horizon), Done) else (s, Refused)
    case SetTracking(start) => (s.(trackingStart := start), Done)
  }

  ghost function Run(s: LedgerState, cs: seq<Command>): LedgerState
    decreases |cs|
  {
    if cs == [] then s else Run(Step(s, cs[0]).0, cs[1..])
  }

  // ------------------------------------------------------------ what every operation keeps

  ghost predicate NoDuplicates(sources: seq<Source>) {
    forall i, j | 0 <= i < j < |sources| :: sources[i].event.key != sources[j].event.key
  }

  ghost predicate OneHolder(ds: seq<Declaration>) {
    forall i, j, key | 0 <= i < j < |ds| :: !(Holds(ds[i], key) && Holds(ds[j], key))
  }

  ghost predicate HorizonCovers(s: LedgerState) {
    forall d | d in s.declarations && d.filed :: s.horizon.Some? && d.dateTo <= s.horizon.value
  }

  ghost predicate Valid(s: LedgerState) {
    && Periods.Disjoint(PeriodsOf(s.declarations))
    && (forall d | d in s.declarations :: NoDuplicates(d.sources))
    && OneHolder(s.declarations)
    && HorizonCovers(s)
  }

  /** The database behind a command: unique ids. */
  ghost predicate SoundBooks(c: Command) {
    (c.Compute? || c.File?) ==> Recognition.WellFormed(c.books)
  }

  lemma {:induction false} EvidenceFacts(events: seq<Event>, ds: seq<Declaration>, k: nat, dateFrom: int)
    requires NoDuplicateKeys(events)
    ensures NoDuplicates(Evidence(events, ds, k, dateFrom))
    ensures forall x | x in Evidence(events, ds, k, dateFrom) ::
      x.event in events && !Claimed(ds, k, x.event.key) && x.prior == (x.event.date < dateFrom)
    ensures forall e | e in events && !Claimed(ds, k, e.key) ::
      Source(e, e.date < dateFrom) in Evidence(events, ds, k, dateFrom)
  {
    hide Claimed;
    if events != [] {
      EvidenceFacts(events[1..], ds, k, dateFrom);
      var rest := Evidence(events[1..], ds, k, dateFrom);
      forall j | 0 <= j < |rest| ensures rest[j].event.key != events[0].key {
        assert rest[j] in rest && rest[j].event in events[1..];
      }
    }
  }

  lemma ComputedFacts(s: LedgerState, k: nat, books: Recognition.Books, review: Review)
    requires MayCompute(s, k, review) && Recognition.WellFormed(books)
    ensures var d := Computed(s, k, books, review);
      && NoDuplicates(d.sources)
      && (forall x | x in d.sources :: x.event in Generated(s, k, books) && !Claimed(s.declarations, k, x.event.key))
  {
    hide Recognition.RecognitionEvents, Anomalous;
    Recognition.GeneratedKeysAreDistinct(books, s.trackingStart.value, s.declarations[k].dateTo);
    EvidenceFacts(Generated(s, k, books), s.declarations, k, s.declarations[k].dateFrom);
  }

  /** Replacing one declaration keeps single claims when its new evidence is claimed by nobody else. */
  lemma ReplaceKeepsOneHolder(ds: seq<Declaration>, k: nat, d: Declaration)
    requires OneHolder(ds) && k < |ds|
    requires forall x | x in d.sources :: x in ds[k].sources || !Claimed(ds, k, x.event.key)
    ensures OneHolder(ds[k := d])
  {
    var r := ds[k := d];
    forall i, j, key | 0 <= i < j < |r| ensures !(Holds(r[i], key) && Holds(r[j], key)) {
      if i == k {
        NotElsewhere(ds, k, d, j, key);
      } else if j == k {
        NotElsewhere(ds, k, d, i, key);
      }
    }
  }

  lemma NotElsewhere(ds: seq<Declaration>, k: nat, d: Declaration, other: nat, key: EventKey)
    requires OneHolder(ds) && k < |ds| && other < |ds| && other != k
    requires forall x | x in d.sources :: x in ds[k].sources || !Claimed(ds, k, x.event.key)
    ensures !(Holds(d, key) && Holds(ds[other], key))
  {
    if Holds(d, key) {
      var x :| x in d.sources && x.event.key == key;
      if x in ds[k].sources {
        OnlyHolder(ds, k, other, key);
      }
    }
  }

  lemma OnlyHolder(ds: seq<Declaration>, i: nat, j: nat, key: EventKey)
    requires OneHolder(ds) && i < |ds| && j < |ds| && i != j && Holds(ds[i], key)
    ensures !Holds(ds[j], key)
  {
  }

  lemma ReplaceKeepsValid(s: LedgerState, k: nat, d: Declaration)
    requires Valid(s) && k < |s.declarations| && NoDuplicates(d.sources)
    requires PeriodOf(d) == PeriodOf(s.declarations[k])
    requires forall x | x in d.sources :: x in s.declarations[k].sources || !Claimed(s.declarations, k, x.event.key)
    requires d.filed ==> s.declarations[k].filed || (s.horizon.Some? && d.dateTo <= s.horizon.value)
    ensures Valid(Replace(s, k, d))
  {
    var ds := s.declarations;
    ReplaceKeepsOneHolder(ds, k, d);
    assert PeriodsOf(ds[k := d]) == PeriodsOf(ds);
    assert ds[k] in ds;
    forall x | x in ds[k := d] ensures NoDuplicates(x.sources)
        && (x.filed ==> s.horizon.Some? && x.dateTo <= s.horizon.value) {
      if x != d {
        assert x in ds;
      }
    }
  }

  lemma CreateKeepsValid(s: LedgerState, c: Command)
    requires Valid(s) && c.Create?
    ensures Valid(Step(s, c).0)
  {
    var ds := s.declarations;
    var p := Periods.Period(c.newId, c.dateFrom, c.dateTo);
    if Step(s, c).1 == Done {
      var ds' := Step(s, c).0.declarations;
      var ps := PeriodsOf(ds);
      assert PeriodsOf(ds') == ps + [p];
      forall i | 0 <= i < |ds| ensures ps[i].id != p.id && !Periods.Overlaps(ps[i], p) {
        assert ps[i] in ps && ds[i].id != c.newId;
      }
      forall i, j, key | 0 <= i < j < |ds'| ensures !(Holds(ds'[i], key) && Holds(ds'[j], key)) {
        assert j == |ds| ==> ds'[j].sources == [];
      }
    }
  }

  lemma MoveKeepsValid(s: LedgerState, c: Command)
    requires Valid(s) && c.Move?
    ensures Valid(Step(s, c).0)
  {
    var ds := s.declarations;
    var k := Find(ds, c.id);
    if Step(s, c).1 == Done {
      var d := ds[k].(dateFrom := c.dateFrom, dateTo := c.dateTo);
      var ps, ps' := PeriodsOf(ds), PeriodsOf(ds[k := d]);
      assert ps' == ps[k := PeriodOf(d)];
      Periods.MovedDisjoint(ps, k, PeriodOf(d));
      ReplaceKeepsOneHolder(ds, k, d);
      assert ds[k] in ds;
      forall x | x in ds[k := d] && x != d ensures x in ds {
      }
    }
  }

  lemma DeleteKeepsValid(s: LedgerState, c: Command)
    requires Valid(s) && c.Delete?
    ensures Valid(Step(s, c).0)
  {
    var ds := s.declarations;
    var k := Find(ds, c.id);
    if Step(s, c).1 == Done {
      var ds' := ds[..k] + ds[k + 1..];
      assert PeriodsOf(ds') == Periods.Without(PeriodsOf(ds), k);
      Periods.WithoutMembers(PeriodsOf(ds), k);
      assert forall x | x in ds' :: x in ds;
      DeleteKeepsOneHolder(ds, k);
    }
  }

  lemma DeleteKeepsOneHolder(ds: seq<Declaration>, k: nat)
    requires OneHolder(ds) && k < |ds|
    ensures OneHolder(ds[..k] + ds[k + 1..])
  {
    hide Holds;
    var ds' := ds[..k] + ds[k + 1..];
    forall i, j, key | 0 <= i < j < |ds'| ensures !(Holds(ds'[i], key) && Holds(ds'[j], key)) {
      var i', j' := if i < k then i else i + 1, if j < k then j else j + 1;
      assert ds'[i] == ds[i'] && ds'[j] == ds[j'];
    }
  }

  /** Every operation keeps: no overlap, no key held twice, and a horizon past every filed period. */
  lemma StepKeepsValid(s: LedgerState, c: Command)
    requires Valid(s) && SoundBooks(c)
    ensures Valid(Step(s, c).0)
  {
    hide Computed, Claimed, Generated;
    if Step(s, c).1 == Done {
      match c
      case Create(_, _, _) => CreateKeepsValid(s, c);
      case Move(_, _, _) => MoveKeepsValid(s, c);
      case Delete(_) => DeleteKeepsValid(s, c);
      case Adjust(id, category, amount, _) =>
        var k := Find(s.declarations, id);
        assert s.declarations[k] in s.declarations;
        ReplaceKeepsValid(s, k, s.declarations[k].(adjustments := s.declarations[k].adjustments[category := amount]));
      case Compute(id, books, review) =>
        var k := Find(s.declarations, id);
        ComputedFacts(s, k, books, review);
        ComputedFrame(s, k, books, review);
        ReplaceKeepsValid(s, k, Computed(s, k, books, review));
      case File(id, books, review) =>
        var k := Find(s.declarations, id);
        ComputedFacts(s, k, books, review);
        ComputedFrame(s, k, books, review);
        var s' := s.(horizon := Advanced(s.horizon, s.declarations[k].dateTo));
        ReplaceKeepsValid(s', k, Computed(s, k, books, review).(filed := true, hasReason := false));
      case GiveReason(id) =>
        var k := Find(s.declarations, id);
        assert s.declarations[k] in s.declarations;
        ReplaceKeepsValid(s, k, s.declarations[k].(hasReason := true));
      case Reset(id) =>
        var k := Find(s.declarations, id);
        assert s.declarations[k] in s.declarations;
        ReplaceKeepsValid(s, k, s.declarations[k].(filed := false));
      case SetHorizon(_) =>
      case SetTracking(_) =>
    }
  }

  lemma ComputedFrame(s: LedgerState, k: nat, books: Recognition.Books, review: Review)
    requires MayCompute(s, k, review)
    ensures var d := Computed(s, k, books, review);
      d == s.declarations[k].(sources := d.sources, blocking := d.blocking)
  {
  }

  /** The same over any run. */
  lemma {:induction false} RunKeepsValid(s: LedgerState, cs: seq<Command>)
    requires Valid(s) && forall c | c in cs :: SoundBooks(c)
    ensures Valid(Run(s, cs))
    decreases |cs|
  {
    if cs != [] {
      assert cs[0] in cs;
      StepKeepsValid(s, cs[0]);
      RunKeepsValid(Step(s, cs[0]).0, cs[1..]);
    }
  }

  // ------------------------------------------------------------ filing claims everything

  /** Exactly one declaration holds the key, and it is filed. */
  ghost predicate HeldByOneFiled(ds: seq<Declaration>, key: EventKey) {
    exists j :: 0 <= j < |ds| && Holds(ds[j], key) && ds[j].filed
                && forall i | 0 <= i < |ds| && i != j :: !Holds(ds[i], key)
  }

  /**
   After a successful filing every event from the tracking start to the period end is held
   by exactly one filed declaration.
   */
  lemma FilingClaimsEveryEvent(s: LedgerState, id: int, books: Recognition.Books, review: Review, e: Event)
    requires Valid(s) && Recognition.WellFormed(books) && Step(s, File(id, books, review)).1 == Done
    requires e in Generated(s, Find(s.declarations, id), books)
    ensures HeldByOneFiled(Step(s, File(id, books, review)).0.declarations, e.key)
  {
    hide Recognition.RecognitionEvents, NegativeBox;
    var k := Find(s.declarations, id);
    var ds := s.declarations;
    var s' := Step(s, File(id, books, review)).0;
    var ds' := s'.declarations;
    StepKeepsValid(s, File(id, books, review));
    Recognition.GeneratedKeysAreDistinct(books, s.trackingStart.value, ds[k].dateTo);
    EvidenceFacts(Generated(s, k, books), ds, k, ds[k].dateFrom);
    var j;
    if Claimed(ds, k, e.key) {
      j :| 0 <= j < |ds| && j != k && Holds(ds[j], e.key);
      assert !ClaimedByDraft(ds, k, e.key);
      assert ds'[j] == ds[j];
    } else {
      j := k;
      assert Source(e, e.date < ds[k].dateFrom) in ds'[k].sources;
    }
    assert Holds(ds'[j], e.key) && ds'[j].filed;
    forall i | 0 <= i < |ds'| && i != j ensures !Holds(ds'[i], e.key) {
      OnlyHolder(ds', j, i, e.key);
    }
  }

  // ------------------------------------------------------------ filed evidence is frozen

  ghost predicate FiledAs(s: LedgerState, d: Declaration) {
    exists x :: x in s.declarations && x.filed && x == d.(hasReason := x.hasReason)
  }

  lemma StepKeepsFiled(s: LedgerState, c: Command, d: Declaration)
    requires FiledAs(s, d) && c != Reset(d.id)
    ensures FiledAs(Step(s, c).0, d)
  {
    hide Computed, Periods.Accepted, PeriodsOf;
    var ds, s' := s.declarations, Step(s, c).0;
    var x :| x in ds && x.filed && x == d.(hasReason := x.hasReason);
    var i :| 0 <= i < |ds| && ds[i] == x;
    if Step(s, c).1 == Done && !c.SetHorizon? && !c.SetTracking? {
      if c.Create? {
        assert s'.declarations[i] == x;
      } else {
        var k := Find(ds, c.id);
        if c.Delete? {
          assert i != k;
          assert s'.declarations[if i < k then i else i - 1] == x;
        } else if i == k {
          assert c.GiveReason?;
          assert s'.declarations[k] == x.(hasReason := true);
        } else {
          assert s'.declarations[i] == x;
        }
      }
    }
  }

  /** Whatever is done, short of resetting it, a filed declaration keeps its period, evidence and adjustments. */
  lemma {:induction false} FiledEvidenceIsFrozen(s: LedgerState, cs: seq<Command>, d: Declaration)
    requires FiledAs(s, d) && Reset(d.id) !in cs
    ensures FiledAs(Run(s, cs), d)
    decreases |cs|
  {
    if cs != [] {
      assert cs[0] in cs;
      StepKeepsFiled(s, cs[0], d);
      FiledEvidenceIsFrozen(Step(s, cs[0]).0, cs[1..], d);
    }
  }

  // ------------------------------------------------------------ the horizon

  predicate HorizonAtLeast(s: LedgerState, date: int) {
    s.horizon.Some? && s.horizon.value >= date
  }

  /** The horizon never moves back: what it once reached it keeps, whatever is reset or deleted later. */
  lemma {:induction false} HorizonNeverMovesBack(s: LedgerState, cs: seq<Command>, date: int)
    requires HorizonAtLeast(s, date)
    ensures HorizonAtLeast(Run(s, cs), date)
    decreases |cs|
  {
    if cs != [] {
      HorizonNeverMovesBack(Step(s, cs[0]).0, cs[1..], date);
    }
  }

  /** Every period end ever filed stays at or before the horizon. */
  lemma EveryFiledPeriodStaysClosed(s: LedgerState, id: int, books: Recognition.Books, review: Review, cs: seq<Command>)
    requires Step(s, File(id, books, review)).1 == Done
    ensures HorizonAtLeast(Run(Step(s, File(id, books, review)).0, cs), s.declarations[Find(s.declarations, id)].dateTo)
  {
    HorizonNeverMovesBack(Step(s, File(id, books, review)).0, cs, s.declarations[Find(s.declarations, id)].dateTo);
  }

  // ------------------------------------------------------------ the periods of a run

  /**
   What has to hold before a command so that the periods keep tiling time: only
   a period at an end of the line may be deleted or moved elsewhere.
   */
  ghost predicate KeepsTiling(s: LedgerState, c: Command) {
    var k, ps := if c.Move? || c.Delete? then Find(s.declarations, c.id) else 0, PeriodsOf(s.declarations);
    Step(s, c).1 == Done && (c.Move? || c.Delete?) && Periods.HasBefore(ps, ps[k]) && Periods.HasAfter(ps, ps[k]) ==>
      c.Move? && c.dateFrom == ps[k].dateFrom && c.dateTo == ps[k].dateTo
  }

  /** One command keeps the gap-free tiling exactly when it moves or deletes no period from between two others. */
  lemma StepKeepsTilingExactly(s: LedgerState, c: Command)
    requires Periods.Tiling(PeriodsOf(s.declarations))
    ensures Periods.Tiling(PeriodsOf(Step(s, c).0.declarations)) <==> KeepsTiling(s, c)
  {
    hide Periods.Tiling, Periods.Accepted, Periods.HasBefore, Periods.HasAfter, Computed, MayCompute;
    var ds, ds' := s.declarations, Step(s, c).0.declarations;
    if Step(s, c).1 == Done {
      if c.Create? {
        CreateKeepsTiling(s, c);
      } else if c.Move? {
        var k := Find(ds, c.id);
        var p := Periods.Period(c.id, c.dateFrom, c.dateTo);
        assert PeriodsOf(ds') == PeriodsOf(ds)[k := p];
        Periods.MoveKeepsTilingExactly(PeriodsOf(ds), k, p);
      } else if c.Delete? {
        var k := Find(ds, c.id);
        assert PeriodsOf(ds') == Periods.Without(PeriodsOf(ds), k);
        Periods.DeleteKeepsTilingExactly(PeriodsOf(ds), k);
        TilingIsBoth(PeriodsOf(ds'));
      } else {
        SamePeriods(s, c);
      }
    }
  }

  lemma TilingIsBoth(periods: seq<Periods.Period>)
    ensures Periods.Tiling(periods) <==> Periods.Disjoint(periods) && Periods.GapFree(periods)
  {
  }

  lemma CreateKeepsTiling(s: LedgerState, c: Command)
    requires Periods.Tiling(PeriodsOf(s.declarations)) && c.Create? && Step(s, c).1 == Done
    ensures Periods.Tiling(PeriodsOf(Step(s, c).0.declarations))
  {
    hide Periods.Tiling, Periods.Accepted;
    var ds, ds' := s.declarations, Step(s, c).0.declarations;
    var p := Periods.Period(c.newId, c.dateFrom, c.dateTo);
    assert PeriodsOf(ds') == PeriodsOf(ds) + [p];
    NewId(ds, c.newId);
    Periods.CreateKeepsTiling(PeriodsOf(ds), p);
  }

  lemma NewId(ds: seq<Declaration>, id: int)
    requires Find(ds, id) == |ds|
    ensures forall o | o in PeriodsOf(ds) :: o.id != id
  {
    forall o | o in PeriodsOf(ds) ensures o.id != id {
      var i :| 0 <= i < |ds| && PeriodsOf(ds)[i] == o;
      assert ds[i].id != id;
    }
  }

  lemma SamePeriods(s: LedgerState, c: Command)
    requires !c.Create? && !c.Move? && !c.Delete?
    ensures PeriodsOf(Step(s, c).0.declarations) == PeriodsOf(s.declarations)
  {
    hide Computed;
    var ds, ds' := s.declarations, Step(s, c).0.declarations;
    if c.Compute? || c.File? {
      var k := Find(ds, c.id);
      if MayCompute(s, k, c.review) {
        ComputedFrame(s, k, c.books, c.review);
      }
    }
    assert PeriodsOf(ds') == PeriodsOf(ds);
  }

  ghost predicate AlwaysTiling(s: LedgerState, cs: seq<Command>)
    decreases |cs|
  {
    Periods.Tiling(PeriodsOf(s.declarations)) && (cs != [] ==> AlwaysTiling(Step(s, cs[0]).0, cs[1..]))
  }

  ghost predicate TilingRun(s: LedgerState, cs: seq<Command>)
    decreases |cs|
  {
    cs != [] ==> KeepsTiling(s, cs[0]) && TilingRun(Step(s, cs[0]).0, cs[1..])
  }

  /** The periods tile time throughout a run exactly when no period is moved or deleted from between two others. */
  lemma {:induction false} RunKeepsTilingExactly(s: LedgerState, cs: seq<Command>)
    requires Periods.Tiling(PeriodsOf(s.declarations))
    ensures AlwaysTiling(s, cs) <==> TilingRun(s, cs)
    decreases |cs|
  {
    hide Periods.Tiling, KeepsTiling, Step;
    if cs != [] {
      StepKeepsTilingExactly(s, cs[0]);
      if KeepsTiling(s, cs[0]) {
        RunKeepsTilingExactly(Step(s, cs[0]).0, cs[1..]);
      }
    }
  }

  // ------------------------------------------------------------ declarations created as proposed

  /** A new declaration: its identifier, and the company and day its period is proposed for. */
  datatype Entry = Entry(id: int, company: Periods.Company, today: nat)

  /** Declarations created one after another, each for the period the form proposes. */
  ghost function CreatedAsProposed(s: LedgerState, entries: seq<Entry>): LedgerState
    decreases |entries|
  {
    if entries == [] then s
    else
      var p := Periods.Proposal(entries[0].company, PeriodsOf(s.declarations), entries[0].today);
      CreatedAsProposed(Step(s, Create(entries[0].id, p.0, p.1)).0, entries[1..])
  }

  function ChoicesOf(entries: seq<Entry>): (r: seq<Periods.Choice>)
    ensures |r| == |entries|
    ensures forall i | 0 <= i < |r| :: r[i] == Periods.Choice(entries[i].id, entries[i].company.quarterly)
  {
    seq(|entries|, i requires 0 <= i < |entries| => Periods.Choice(entries[i].id, entries[i].company.quarterly))
  }

  ghost predicate NewIds(ds: seq<Declaration>, entries: seq<Entry>) {
    && (forall i, j | 0 <= i < j < |entries| :: entries[i].id != entries[j].id)
    && (forall i | 0 <= i < |entries| :: Find(ds, entries[i].id) == |ds|)
  }

  /** Periods run forwards and end after day zero. */
  ghost predicate Forwards(periods: seq<Periods.Period>) {
    forall p | p in periods :: p.dateFrom <= p.dateTo && 0 <= p.dateTo
  }

  /** Every proposal is accepted, and together they are the chain of proposals. */
  lemma {:induction false} ProposalsAreChained(s: LedgerState, entries: seq<Entry>)
    requires entries != [] && Forwards(PeriodsOf(s.declarations)) && NewIds(s.declarations, entries)
    ensures var ps, e := PeriodsOf(s.declarations), entries[0];
      var dateFrom := Periods.Proposal(e.company, ps, e.today).0;
      && dateFrom >= 0
      && PeriodsOf(CreatedAsProposed(s, entries).declarations)
         == ps + Periods.Chained(dateFrom, ChoicesOf(entries), Periods.IsFirst(e.company, ps, e.today))
    decreases |entries|
  {
    hide Periods.Proposal, Periods.ProposedEnd, Periods.Accepted, Periods.IsFirst, Step, Forwards, NewIds;
    var ps, e := PeriodsOf(s.declarations), entries[0];
    var p := Periods.Proposal(e.company, ps, e.today);
    var first := Periods.IsFirst(e.company, ps, e.today);
    var period := Periods.Period(e.id, p.0, p.1);
    FirstIdIsNew(s.declarations, entries);
    ProposalStep(s, e);
    var s' := Step(s, Create(e.id, p.0, p.1)).0;
    var rest := Periods.Chained(p.1 + 1, ChoicesOf(entries)[1..], false);
    assert Periods.Chained(p.0, ChoicesOf(entries), first) == [period] + rest;
    assert ChoicesOf(entries)[1..] == ChoicesOf(entries[1..]);
    AppendOne(ps, period, rest);
    if entries[1..] == [] {
      assert rest == [] && CreatedAsProposed(s', entries[1..]) == s';
      assert ps + [period] + [] == ps + [period];
    } else {
      NewIdsRemain(s.declarations, s'.declarations, entries, period);
      ProposalsAreChained(s', entries[1..]);
      NextProposal(entries[1].company, ps, period, entries[1].today);
    }
  }

  lemma FirstIdIsNew(ds: seq<Declaration>, entries: seq<Entry>)
    requires entries != [] && NewIds(ds, entries)
    ensures Find(ds, entries[0].id) == |ds|
  {
  }

  lemma NextProposal(company: Periods.Company, ps: seq<Periods.Period>, p: Periods.Period, today: nat)
    requires forall o | o in ps :: o.dateTo <= p.dateTo
    ensures Periods.Proposal(company, ps + [p], today).0 == p.dateTo + 1
    ensures !Periods.IsFirst(company, ps + [p], today)
  {
    assert p in ps + [p];
  }

  lemma ProposalStep(s: LedgerState, e: Entry)
    requires Forwards(PeriodsOf(s.declarations)) && Find(s.declarations, e.id) == |s.declarations|
    ensures var ps := PeriodsOf(s.declarations);
      var p := Periods.Proposal(e.company, ps, e.today);
      var s' := Step(s, Create(e.id, p.0, p.1)).0;
      && 0 <= p.0 <= p.1
      && p.1 == Periods.ProposedEnd(p.0, e.company.quarterly, Periods.IsFirst(e.company, ps, e.today))
      && (forall o | o in ps :: o.dateTo < p.0)
      && PeriodsOf(s'.declarations) == ps + [Periods.Period(e.id, p.0, p.1)]
      && Forwards(PeriodsOf(s'.declarations))
  {
    hide Periods.ProposedEnd, Periods.Accepted, Periods.EndMonth;
    var ps := PeriodsOf(s.declarations);
    var p := Periods.Proposal(e.company, ps, e.today);
    var period := Periods.Period(e.id, p.0, p.1);
    NewId(s.declarations, e.id);
    Periods.ProposedEndClosesMonth(p.0, e.company.quarterly, Periods.IsFirst(e.company, ps, e.today));
    Periods.ProposalIsAccepted(e.company, ps, period, Periods.IsFirst(e.company, ps, e.today));
    var ds' := Step(s, Create(e.id, p.0, p.1)).0.declarations;
    assert PeriodsOf(ds') == ps + [period];
  }

  lemma NewIdsRemain(ds: seq<Declaration>, ds': seq<Declaration>, entries: seq<Entry>, p: Periods.Period)
    requires entries != [] && NewIds(ds, entries)
    requires PeriodsOf(ds') == PeriodsOf(ds) + [p] && p.id == entries[0].id
    ensures NewIds(ds', entries[1..])
  {
    forall i | 0 <= i < |entries[1..]| ensures Find(ds', entries[1..][i].id) == |ds'| {
      var id := entries[i + 1].id;
      assert Find(ds, id) == |ds| && id != entries[0].id;
      forall j | 0 <= j < |ds'| ensures ds'[j].id != id {
        assert PeriodsOf(ds')[j].id == ds'[j].id;
        if j < |ds| {
          assert PeriodsOf(ds')[j] == PeriodsOf(ds)[j];
        }
      }
    }
  }

  /** A calendar period exactly when it is monthly or starts with a quarter, as it does after a quarterly one. */
  ghost predicate InCalendar(p: Periods.Period, quarterlyBefore: bool, quarterly: bool) {
    && p.dateFrom >= 0
    && (Periods.CalendarPeriod(p, quarterly) <==> !quarterly || Periods.StartsQuarter(p.dateFrom))
    && (quarterlyBefore || !quarterly ==> Periods.CalendarPeriod(p, quarterly))
  }

  /**
   A ledger whose declarations were all created as proposed tiles time from the
   company's start on, and from the second declaration on follows the calendar.
   */
  lemma ProposedLedgerFollowsTheCalendar(s: LedgerState, entries: seq<Entry>, i: nat)
    requires s.declarations == [] && NewIds([], entries) && i < |entries|
    ensures var ps := PeriodsOf(CreatedAsProposed(s, entries).declarations);
      && |ps| == |entries| && Periods.Contiguous(ps)
      && ps[0].dateFrom == Periods.FirstStart(entries[0].company, entries[0].today)
      && (i > 0 ==> InCalendar(ps[i], entries[i - 1].company.quarterly, entries[i].company.quarterly))
  {
    hide Periods.CalendarPeriod, Periods.StartsQuarter, Periods.Contiguous, Periods.Chained, CreatedAsProposed;
    ProposalsAreChained(s, entries);
    var e := entries[0];
    var dateFrom := Periods.FirstStart(e.company, e.today);
    var first := Periods.IsFirst(e.company, [], e.today);
    assert PeriodsOf(s.declarations) == [];
    assert [] + Periods.Chained(dateFrom, ChoicesOf(entries), first)
        == Periods.Chained(dateFrom, ChoicesOf(entries), first);
    Periods.ChainedProposalsTile(dateFrom, ChoicesOf(entries), first);
    if i > 0 {
      Periods.ChainedProposalsFollowTheCalendarExactly(dateFrom, ChoicesOf(entries), first, i);
    }
  }
}
