/** Declaration periods: what `default_get` proposes and `_check_period` accepts. */
module Periods {
  import opened Common
  import opened Calendar

  /** Bounds are day numbers, both inclusive. */
  datatype Period = Period(id: int, dateFrom: int, dateTo: int)

  predicate Overlaps(a: Period, b: Period) {
    a.dateFrom <= b.dateTo && a.dateTo >= b.dateFrom
  }

  /** What the period check lets through, seen from the other periods of the company. */
  ghost predicate Accepted(others: seq<Period>, p: Period) {
    && p.dateFrom <= p.dateTo
    && (forall o | o in others && o.id != p.id :: !Overlaps(o, p))
    && ((exists o | o in others && o.id != p.id :: o.dateTo < p.dateFrom) ==>
          exists o | o in others && o.id != p.id :: o.dateTo == p.dateFrom - 1)
    && ((exists o | o in others && o.id != p.id :: o.dateFrom > p.dateTo) ==>
          exists o | o in others && o.id != p.id :: o.dateFrom == p.dateTo + 1)
  }

  method CheckPeriod(others: seq<Period>, p: Period) returns (outcome: Outcome)
    ensures outcome == Done <==> Accepted(others, p)
  {
    if p.dateTo < p.dateFrom {
      return Refused;
    }
    var previous: Option<Period> := None;
    var following: Option<Period> := None;
    for i := 0 to |others|
      invariant forall o | o in others[..i] && o.id != p.id :: !Overlaps(o, p)
      invariant previous.Some? ==>
        previous.value in others && previous.value.id != p.id && previous.value.dateTo < p.dateFrom
      invariant forall o | o in others[..i] && o.id != p.id && o.dateTo < p.dateFrom ::
        previous.Some? && o.dateTo <= previous.value.dateTo
      invariant following.Some? ==>
        following.value in others && following.value.id != p.id && following.value.dateFrom > p.dateTo
      invariant forall o | o in others[..i] && o.id != p.id && o.dateFrom > p.dateTo ::
        following.Some? && o.dateFrom >= following.value.dateFrom
    {
      var o := others[i];
      assert others[..i + 1] == others[..i] + [o];
      if o.id != p.id {
        if Overlaps(o, p) {
          return Refused;
        }
        if o.dateTo < p.dateFrom && (previous.None? || previous.value.dateTo < o.dateTo) {
          previous := Some(o);
        }
        if o.dateFrom > p.dateTo && (following.None? || o.dateFrom < following.value.dateFrom) {
          following := Some(o);
        }
      }
    }
    assert others[..|others|] == others;
    if previous.Some? && p.dateFrom != previous.value.dateTo + 1 {
      return Refused;
    }
    if following.Some? && following.value.dateFrom != p.dateTo + 1 {
      return Refused;
    }
    return Done;
  }

  // ------------------------------------------------------------ tilings

  /** Periods run forwards and never overlap. */
  ghost predicate Disjoint(periods: seq<Period>) {
    && (forall p | p in periods :: p.dateFrom <= p.dateTo)
    && (forall i, j | 0 <= i < j < |periods| :: periods[i].id != periods[j].id && !Overlaps(periods[i], periods[j]))
  }

  /** Every period except the last in time is followed at once by another. */
  ghost predicate GapFree(periods: seq<Period>) {
    forall p, q | p in periods && q in periods && p.dateTo < q.dateFrom ::
      StartsAt(periods, p.dateTo + 1)
  }

  ghost predicate StartsAt(periods: seq<Period>, day: int) {
    exists r :: r in periods && r.dateFrom == day
  }

  ghost predicate Tiling(periods: seq<Period>) {
    Disjoint(periods) && GapFree(periods)
  }

  predicate Covers(periods: seq<Period>, day: int) {
    exists p | p in periods :: p.dateFrom <= day <= p.dateTo
  }

  /** In a gap-free tiling every day between two covered days is covered, by one period. */
  lemma TilingCovers(periods: seq<Period>, p: Period, q: Period, day: int)
    requires Tiling(periods) && p in periods && q in periods && p.dateFrom <= day <= q.dateTo
    ensures Covers(periods, day)
    decreases day - p.dateTo
  {
    if day > p.dateTo {
      if p.dateTo < q.dateFrom {
        var r :| r in periods && r.dateFrom == p.dateTo + 1;
        TilingCovers(periods, r, q, day);
      } else {
        SamePeriod(periods, p, q);
      }
    }
  }

  /** Creating an accepted period keeps one gap-free tiling. */
  lemma CreateKeepsTiling(periods: seq<Period>, p: Period)
    requires Tiling(periods) && (forall o | o in periods :: o.id != p.id) && Accepted(periods, p)
    ensures Tiling(periods + [p])
  {
    hide Accepted, StartsAt;
    var all := periods + [p];
    CreateKeepsDisjoint(periods, p);
    hide Disjoint;
    forall a, b | a in all && b in all && a.dateTo < b.dateFrom ensures StartsAt(all, a.dateTo + 1) {
      StillFollowed(periods, p, a, b);
    }
  }

  lemma CreateKeepsDisjoint(periods: seq<Period>, p: Period)
    requires Disjoint(periods) && (forall o | o in periods :: o.id != p.id) && Accepted(periods, p)
    ensures Disjoint(periods + [p])
  {
    var all := periods + [p];
    forall i | 0 <= i < |periods| ensures all[i].id != p.id && !Overlaps(all[i], p) {
      assert periods[i] in periods;
    }
  }

  lemma StartsGrow(periods: seq<Period>, p: Period, day: int)
    requires StartsAt(periods, day)
    ensures StartsAt(periods + [p], day)
  {
    var r :| r in periods && r.dateFrom == day;
    assert r in periods + [p];
  }

  lemma StillFollowed(periods: seq<Period>, p: Period, a: Period, b: Period)
    requires Tiling(periods) && (forall o | o in periods :: o.id != p.id) && Accepted(periods, p)
    requires a in periods + [p] && b in periods + [p] && a.dateTo < b.dateFrom
    ensures StartsAt(periods + [p], a.dateTo + 1)
  {
    if a !in periods {
      assert a == p && b in periods && b.id != p.id;
      var o :| o in periods && o.dateFrom == p.dateTo + 1;
      StartsGrow(periods, p, p.dateTo + 1);
    } else if b !in periods {
      AcceptedFollows(periods, p, a);
    } else {
      StartsGrow(periods, p, a.dateTo + 1);
    }
  }

  /** Everything before an accepted period is followed at once, at the latest by that period. */
  lemma AcceptedFollows(periods: seq<Period>, p: Period, a: Period)
    requires Tiling(periods) && (forall o | o in periods :: o.id != p.id) && Accepted(periods, p)
    requires a in periods && a.dateTo < p.dateFrom
    ensures StartsAt(periods + [p], a.dateTo + 1)
  {
    var all := periods + [p];
    var o :| o in periods && o.dateTo == p.dateFrom - 1;
    if a.dateTo < o.dateFrom {
      var r :| r in periods && r.dateFrom == a.dateTo + 1;
      assert r in all;
    } else {
      SamePeriod(periods, a, o);
      assert p in all;
    }
  }

  lemma SamePeriod(periods: seq<Period>, a: Period, b: Period)
    requires Disjoint(periods) && a in periods && b in periods && Overlaps(a, b)
    ensures a == b
  {
    var i :| 0 <= i < |periods| && periods[i] == a;
    var j :| 0 <= j < |periods| && periods[j] == b;
  }

  function Without(periods: seq<Period>, k: nat): seq<Period>
    requires k < |periods|
  {
    periods[..k] + periods[k + 1..]
  }

  ghost predicate HasBefore(periods: seq<Period>, d: Period) {
    exists p | p in periods :: p.dateTo < d.dateFrom
  }

  ghost predicate HasAfter(periods: seq<Period>, d: Period) {
    exists q | q in periods :: q.dateFrom > d.dateTo
  }

  lemma WithoutMembers(periods: seq<Period>, k: nat)
    requires Disjoint(periods) && k < |periods|
    ensures forall p :: p in Without(periods, k) <==> p in periods && p != periods[k]
    ensures Disjoint(Without(periods, k))
  {
    var rest := Without(periods, k);
    forall p | p in periods && p != periods[k] ensures p in rest {
      var i :| 0 <= i < |periods| && periods[i] == p;
      assert i < k ==> rest[i] == p;
      assert i > k ==> rest[i - 1] == p;
    }
  }

  /**
   Deleting a period keeps the tiling exactly when no period lies before it or
   none lies after it: an interior draft leaves a gap.
   */
  lemma DeleteKeepsTilingExactly(periods: seq<Period>, k: nat)
    requires Tiling(periods) && k < |periods|
    ensures Disjoint(Without(periods, k))
    ensures GapFree(Without(periods, k)) <==> !(HasBefore(periods, periods[k]) && HasAfter(periods, periods[k]))
  {
    hide DaysIn;
    WithoutMembers(periods, k);
    if HasBefore(periods, periods[k]) && HasAfter(periods, periods[k]) {
      var p :| p in periods && p.dateTo < periods[k].dateFrom;
      var q :| q in periods && q.dateFrom > periods[k].dateTo;
      var before := PeriodBefore(periods, p, periods[k]);
      InteriorDeleteLeavesGap(periods, k, before, q);
    } else {
      forall a, b | a in Without(periods, k) && b in Without(periods, k) && a.dateTo < b.dateFrom
        ensures StartsAt(Without(periods, k), a.dateTo + 1)
      {
        EndDeleteKeepsFollower(periods, k, a, b);
      }
    }
  }

  /** The period's bounds after a move; the record stays the same. */
  predicate SameBounds(a: Period, b: Period) {
    a.dateFrom == b.dateFrom && a.dateTo == b.dateTo
  }

  /**
   Moving a period to an accepted place keeps the tiling exactly when it stood
   at an end, or did not move at all.
   */
  lemma MoveKeepsTilingExactly(periods: seq<Period>, k: nat, p: Period)
    requires Tiling(periods) && k < |periods| && p.id == periods[k].id && Accepted(periods, p)
    ensures Tiling(periods[k := p]) <==>
      !(HasBefore(periods, periods[k]) && HasAfter(periods, periods[k])) || SameBounds(p, periods[k])
  {
    hide HasBefore, HasAfter, GapFree, Accepted;
    MovedMembers(periods, k, p);
    MovedAccepted(periods, k, p);
    MovedDisjoint(periods, k, p);
    DeleteKeepsTilingExactly(periods, k);
    if SameBounds(p, periods[k]) {
      assert periods[k := p] == periods;
    } else if HasBefore(periods, periods[k]) && HasAfter(periods, periods[k]) {
      InteriorMoveLeavesGap(periods, k, p);
    } else {
      CreateKeepsTiling(Without(periods, k), p);
      SameGaps(Without(periods, k) + [p], periods[k := p]);
    }
  }

  /** Nobody else has the identifier. */
  lemma OthersDiffer(periods: seq<Period>, k: nat, p: Period)
    requires Disjoint(periods) && k < |periods| && p.id == periods[k].id
    ensures forall o | o in periods :: o.id != p.id <==> o != periods[k]
  {
    forall o | o in periods ensures o.id != p.id <==> o != periods[k] {
      var i :| 0 <= i < |periods| && periods[i] == o;
    }
  }

  lemma MovedMembers(periods: seq<Period>, k: nat, p: Period)
    requires Disjoint(periods) && k < |periods|
    ensures forall o :: o in periods[k := p] <==> o in Without(periods, k) + [p]
  {
    hide Disjoint;
    var rest, moved := Without(periods, k), periods[k := p];
    forall o | o in rest + [p] ensures o in moved {
      if o in rest {
        var i :| 0 <= i < |rest| && rest[i] == o;
        assert moved[if i < k then i else i + 1] == o;
      } else {
        assert moved[k] == o;
      }
    }
    forall o | o in moved ensures o in rest + [p] {
      var i :| 0 <= i < |moved| && moved[i] == o;
      if i != k {
        assert rest[if i < k then i else i - 1] == o;
      }
    }
  }

  /** The move is accepted by the periods that stay where they are. */
  lemma MovedAccepted(periods: seq<Period>, k: nat, p: Period)
    requires Disjoint(periods) && k < |periods| && p.id == periods[k].id && Accepted(periods, p)
    ensures Accepted(Without(periods, k), p) && forall o | o in Without(periods, k) :: o.id != p.id
  {
    hide Overlaps, Disjoint, Without;
    WithoutMembers(periods, k);
    OthersDiffer(periods, k, p);
    assert forall o :: o in Without(periods, k) <==> o in periods && o.id != p.id;
  }

  lemma MovedDisjoint(periods: seq<Period>, k: nat, p: Period)
    requires Disjoint(periods) && k < |periods| && p.id == periods[k].id && Accepted(periods, p)
    ensures Disjoint(periods[k := p])
  {
    forall i | 0 <= i < |periods| && i != k ensures periods[i].id != p.id && !Overlaps(periods[i], p) {
      assert periods[i] in periods;
    }
  }

  lemma SameGaps(a: seq<Period>, b: seq<Period>)
    requires GapFree(a) && forall o :: o in a <==> o in b
    ensures GapFree(b)
  {
    forall p, q | p in b && q in b && p.dateTo < q.dateFrom ensures StartsAt(b, p.dateTo + 1) {
      assert StartsAt(a, p.dateTo + 1);
    }
  }

  /** The period that starts the day after `d` ends. */
  lemma PeriodAfter(periods: seq<Period>, d: Period, q: Period) returns (r: Period)
    requires GapFree(periods) && d in periods && q in periods && d.dateTo < q.dateFrom
    ensures r in periods && r.dateFrom == d.dateTo + 1
  {
    assert StartsAt(periods, d.dateTo + 1);
    r :| r in periods && r.dateFrom == d.dateTo + 1;
  }

  lemma InteriorMoveLeavesGap(periods: seq<Period>, k: nat, p: Period)
    requires Tiling(periods) && k < |periods| && p.id == periods[k].id && Accepted(periods, p)
    requires HasBefore(periods, periods[k]) && HasAfter(periods, periods[k]) && !SameBounds(p, periods[k])
    ensures !GapFree(periods[k := p])
  {
    hide Disjoint, GapFree, Accepted, Overlaps;
    var earlier :| earlier in periods && earlier.dateTo < periods[k].dateFrom;
    var q :| q in periods && q.dateFrom > periods[k].dateTo;
    var before := PeriodBefore(periods, earlier, periods[k]);
    var follower := PeriodAfter(periods, periods[k], q);
    NothingStartsThere(periods, k, p, before, follower, q);
  }

  lemma NothingStartsThere(periods: seq<Period>, k: nat, p: Period, before: Period, follower: Period, q: Period)
    requires Tiling(periods) && k < |periods| && p.id == periods[k].id && Accepted(periods, p)
      && !SameBounds(p, periods[k])
    requires before in periods && before.dateTo + 1 == periods[k].dateFrom
    requires follower in periods && follower.dateFrom == periods[k].dateTo + 1
    requires q in periods && q.dateFrom > periods[k].dateTo
    ensures !GapFree(periods[k := p])
  {
    hide Disjoint, Accepted, Overlaps, GapFree, StartsAt;
    var d, moved := periods[k], periods[k := p];
    RunsForward(periods, k);
    MovedMembers(periods, k, p);
    WithoutMembers(periods, k);
    var rest := Without(periods, k);
    assert before in rest && q in rest;
    assert before in rest + [p] && q in rest + [p];
    forall r | r in moved ensures r.dateFrom != d.dateFrom {
      if r == p && r.dateFrom == d.dateFrom {
        InteriorMoveMisfits(periods, k, p, follower);
      } else if r != p {
        StartsApart(periods, r, d);
      }
    }
    LeavesGap(moved, before, q);
  }

  lemma RunsForward(periods: seq<Period>, k: nat)
    requires Disjoint(periods) && k < |periods|
    ensures periods[k] in periods && periods[k].dateFrom <= periods[k].dateTo
  {
  }

  lemma LeavesGap(periods: seq<Period>, before: Period, q: Period)
    requires before in periods && q in periods && before.dateTo < q.dateFrom
    requires forall r | r in periods :: r.dateFrom != before.dateTo + 1
    ensures !GapFree(periods)
  {
  }

  lemma StartsApart(periods: seq<Period>, a: Period, b: Period)
    requires Disjoint(periods) && a in periods && b in periods && a != b
    ensures a.dateFrom != b.dateFrom
  {
    if a.dateFrom == b.dateFrom {
      SamePeriod(periods, a, b);
    }
  }

  /** Starting where it did, the moved period would have to end where it did. */
  lemma InteriorMoveMisfits(periods: seq<Period>, k: nat, p: Period, follower: Period)
    requires Tiling(periods) && k < |periods| && p.id == periods[k].id && Accepted(periods, p)
    requires follower in periods && follower != periods[k] && follower.dateFrom == periods[k].dateTo + 1
    requires p.dateFrom == periods[k].dateFrom
    ensures p.dateTo == periods[k].dateTo
  {
    WithoutMembers(periods, k);
    var d := periods[k];
    var i :| 0 <= i < |periods| && periods[i] == follower;
    assert follower.id != p.id && !Overlaps(follower, p);
    if p.dateTo < d.dateTo {
      var o :| o in periods && o.id != p.id && o.dateFrom == p.dateTo + 1;
      SamePeriod(periods, o, d);
    }
  }

  lemma InteriorDeleteLeavesGap(periods: seq<Period>, k: nat, before: Period, q: Period)
    requires Tiling(periods) && k < |periods| && before in periods && q in periods
    requires before.dateTo + 1 == periods[k].dateFrom && q.dateFrom > periods[k].dateTo
    ensures !GapFree(Without(periods, k))
  {
    var d, rest := periods[k], Without(periods, k);
    WithoutMembers(periods, k);
    assert before in rest && q in rest && before.dateTo < q.dateFrom;
    if StartsAt(rest, before.dateTo + 1) {
      var r :| r in rest && r.dateFrom == before.dateTo + 1;
      SamePeriod(periods, r, d);
    }
  }

  lemma EndDeleteKeepsFollower(periods: seq<Period>, k: nat, a: Period, b: Period)
    requires Tiling(periods) && k < |periods|
    requires !(HasBefore(periods, periods[k]) && HasAfter(periods, periods[k]))
    requires a in Without(periods, k) && b in Without(periods, k) && a.dateTo < b.dateFrom
    ensures StartsAt(Without(periods, k), a.dateTo + 1)
  {
    WithoutMembers(periods, k);
    var r :| r in periods && r.dateFrom == a.dateTo + 1;
    if r == periods[k] {
      SamePeriod(periods, r, b);
    }
  }

  /** The period that ends the day before `d` starts. */
  lemma PeriodBefore(periods: seq<Period>, p: Period, d: Period) returns (r: Period)
    requires Tiling(periods) && p in periods && d in periods && p.dateTo < d.dateFrom
    ensures r in periods && r.dateTo + 1 == d.dateFrom
    decreases d.dateFrom - p.dateTo
  {
    var next :| next in periods && next.dateFrom == p.dateTo + 1;
    if next.dateFrom == d.dateFrom {
      r := p;
    } else {
      if next.dateTo >= d.dateFrom {
        SamePeriod(periods, next, d);
      }
      r := PeriodBefore(periods, next, d);
    }
  }

  // ------------------------------------------------------------ proposals

  datatype Company = Company(quarterly: bool, trackingStart: Option<nat>, activityStart: Option<nat>)

  /** The end `default_get` proposes for a period starting on `dateFrom`. */
  function ProposedEnd(dateFrom: nat, quarterly: bool, firstPeriod: bool): int {
    var d := ToDate(dateFrom);
    if quarterly then DayBeforeMonths(QuarterStart(d), if firstPeriod then 6 else 3)
    else DayNumber(MonthEnd(d, if firstPeriod then 3 else 0))
  }

  function FirstStart(company: Company, today: nat): nat {
    if company.trackingStart.Some? then company.trackingStart.value
    else if company.activityStart.Some? then company.activityStart.value
    else today
  }

  /** The latest day covered so far; None without periods. */
  function LastEnd(periods: seq<Period>): (r: Option<int>)
    ensures r.None? <==> periods == []
    ensures r.Some? ==> (exists p | p in periods :: p.dateTo == r.value) && forall p | p in periods ::
      p.dateTo <= r.value
  {
    if periods == [] then None
    else
      assert periods == [periods[0]] + periods[1..];
      var rest := LastEnd(periods[1..]);
      Some(if rest.Some? then Max(periods[0].dateTo, rest.value) else periods[0].dateTo)
  }

  /** Where `default_get` starts and ends the next period, and whether it is the longer first one. */
  function Proposal(company: Company, periods: seq<Period>, today: nat): (int, int) {
    var last := LastEnd(periods);
    var dateFrom := if last.Some? then last.value + 1 else FirstStart(company, today);
    (dateFrom, if dateFrom < 0 then dateFrom
        else ProposedEnd(dateFrom, company.quarterly, IsFirst(company, periods, today)))
  }

  predicate IsFirst(company: Company, periods: seq<Period>, today: nat) {
    periods == [] && company.activityStart == Some(FirstStart(company, today))
  }

  method DefaultGet(company: Company, periods: seq<Period>, today: nat) returns (dateFrom: nat, dateTo: int)
    requires forall p | p in periods :: 0 <= p.dateTo
    ensures (dateFrom as int, dateTo) == Proposal(company, periods, today)
    ensures periods == [] ==>
      dateFrom == FirstStart(company, today)
      && dateTo == ProposedEnd(dateFrom, company.quarterly, company.activityStart == Some(dateFrom))
    ensures periods != [] ==>
      (exists p | p in periods :: p.dateTo + 1 == dateFrom) && (forall p | p in periods :: p.dateTo < dateFrom)
      && dateTo == ProposedEnd(dateFrom, company.quarterly, false)
  {
    var previous: Option<Period> := None;
    for i := 0 to |periods|
      invariant i == 0 <==> previous.None?
      invariant previous.Some? ==> previous.value in periods
      invariant forall p | p in periods[..i] :: previous.Some? && p.dateTo <= previous.value.dateTo
    {
      if previous.None? || periods[i].dateTo > previous.value.dateTo {
        previous := Some(periods[i]);
      }
    }
    assert periods[..|periods|] == periods;
    var firstPeriod;
    if previous.Some? {
      dateFrom := previous.value.dateTo + 1;
      firstPeriod := false;
    } else {
      dateFrom := company.trackingStart.GetOr(company.activityStart.GetOr(today));
      firstPeriod := company.activityStart.Some? && dateFrom == company.activityStart.value;
    }
    dateTo := ProposedEnd(dateFrom, company.quarterly, firstPeriod);
  }

  /** The proposed end is the day before the first of month `EndMonth`. */
  function EndMonth(month: nat, quarterly: bool, firstPeriod: bool): (m: nat)
    ensures month < m
  {
    if quarterly then 3 * (month / 3 + if firstPeriod then 2 else 1)
    else month + if firstPeriod then 4 else 1
  }

  lemma ProposedEndClosesMonth(dateFrom: nat, quarterly: bool, firstPeriod: bool)
    ensures var m := EndMonth(ToDate(dateFrom).month, quarterly, firstPeriod);
      dateFrom <= ProposedEnd(dateFrom, quarterly, firstPeriod) == FirstDay(m) - 1
  {
    hide FirstDay, DaysIn, DateFrom, ToDate, QuarterStart;
    var d := ToDate(dateFrom);
    FirstDayMonotone(d.month, EndMonth(d.month, quarterly, firstPeriod));
  }

  /** Whatever was declared so far, the proposed period passes the check. */
  lemma ProposalIsAccepted(company: Company, periods: seq<Period>, p: Period, firstPeriod: bool)
    requires forall o | o in periods :: o.dateFrom <= o.dateTo
    requires p.dateFrom >= 0 && p.dateTo == ProposedEnd(p.dateFrom, company.quarterly, firstPeriod)
    requires periods != [] ==>
      (exists o | o in periods :: o.dateTo + 1 == p.dateFrom) && (forall o | o in periods :: o.dateTo < p.dateFrom)
    requires forall o | o in periods :: o.id != p.id
    ensures Accepted(periods, p)
  {
    ProposedEndClosesMonth(p.dateFrom, company.quarterly, firstPeriod);
  }

  /** The days from one first of month to the day before another. */
  ghost predicate WholeMonths(p: Period, months: nat) {
    exists m: nat :: p.dateFrom == FirstDay(m) && p.dateTo == FirstDay(m + months) - 1
  }

  ghost predicate WholeQuarter(p: Period) {
    exists k: nat :: p.dateFrom == FirstDay(3 * k) && p.dateTo == FirstDay(3 * k + 3) - 1
  }

  /** The identifier of a new declaration and the company's periodicity when it is proposed. */
  datatype Choice = Choice(id: int, quarterly: bool)

  /** Proposals in a row, each at its own periodicity; the first may be the longer first period. */
  function Chained(dateFrom: nat, choices: seq<Choice>, firstPeriod: bool): seq<Period>
    decreases |choices|
  {
    if choices == [] then []
    else
      var dateTo := ProposedEnd(dateFrom, choices[0].quarterly, firstPeriod);
      [Period(choices[0].id, dateFrom, dateTo)]
      + if dateTo + 1 >= 0 then Chained(dateTo + 1, choices[1..], false) else []
  }

  ghost predicate StartsQuarter(day: nat) {
    exists k: nat :: day == FirstDay(3 * k)
  }

  ghost predicate StartsMonth(day: nat) {
    exists m: nat :: day == FirstDay(m)
  }

  ghost predicate CalendarPeriod(p: Period, quarterly: bool) {
    if quarterly then WholeQuarter(p) else WholeMonths(p, 1)
  }

  /** From the start of a month or quarter, the proposal is exactly that month or quarter. */
  lemma ProposedFromStart(k: nat, quarterly: bool, id: int)
    ensures var dateFrom := FirstDay(if quarterly then 3 * k else k);
      CalendarPeriod(Period(id, dateFrom, ProposedEnd(dateFrom, quarterly, false)), quarterly)
  {
    hide FirstDay, DateFrom, ToDate, ProposedEnd, QuarterStart;
    var m := if quarterly then 3 * k else k;
    ProposedEndClosesMonth(FirstDay(m), quarterly, false);
    DayNumberInjective(ToDate(FirstDay(m)), Date(m, 1));
    assert EndMonth(m, quarterly, false) == m + if quarterly then 3 else 1;
  }

  ghost predicate Contiguous(c: seq<Period>) {
    && (forall i | 0 <= i < |c| :: c[i].dateFrom <= c[i].dateTo)
    && (forall i, j | 0 <= i && j == i + 1 && j < |c| :: c[j].dateFrom == c[i].dateTo + 1)
  }

  lemma NothingChained()
    ensures Contiguous([])
  {
  }

  lemma ContiguousCons(p: Period, c: seq<Period>)
    requires Contiguous(c) && p.dateFrom <= p.dateTo && (c != [] ==> c[0].dateFrom == p.dateTo + 1)
    ensures Contiguous([p] + c)
  {
    var all := [p] + c;
    forall i, j | 0 <= i && j == i + 1 && j < |all| ensures all[j].dateFrom == all[i].dateTo + 1 {
      if i > 0 {
        var i', j' := i - 1, j - 1;
        assert all[i] == c[i'] && all[j] == c[j'];
      }
    }
  }

  /** Chained proposals leave no gap and start where the previous one ended. */
  lemma {:induction false} ChainedProposalsTile(dateFrom: nat, choices: seq<Choice>, firstPeriod: bool)
    ensures var c := Chained(dateFrom, choices, firstPeriod);
      |c| == |choices| && Contiguous(c) && (c != [] ==> c[0].dateFrom == dateFrom)
    decreases |choices|
  {
    hide ProposedEnd, FirstDay, ToDate, EndMonth, Contiguous;
    if choices == [] {
      NothingChained();
    } else {
      ProposedEndClosesMonth(dateFrom, choices[0].quarterly, firstPeriod);
      var next := ProposedEnd(dateFrom, choices[0].quarterly, firstPeriod) + 1;
      ChainedProposalsTile(next, choices[1..], false);
      ContiguousCons(Period(choices[0].id, dateFrom, next - 1), Chained(next, choices[1..], false));
    }
  }

  /**
   A proposal is a calendar month or quarter exactly when it is not the longer first one
   and starts with a month or quarter.
   */
  lemma ProposalFollowsTheCalendarExactly(dateFrom: nat, quarterly: bool, firstPeriod: bool, id: int)
    ensures CalendarPeriod(Period(id, dateFrom, ProposedEnd(dateFrom, quarterly, firstPeriod)), quarterly)
      <==> !firstPeriod && if quarterly then StartsQuarter(dateFrom) else StartsMonth(dateFrom)
  {
    hide FirstDay, DateFrom, ToDate, ProposedEnd, QuarterStart;
    if if quarterly then StartsQuarter(dateFrom) else StartsMonth(dateFrom) {
      var k := StartIndex(dateFrom, quarterly);
      if firstPeriod {
        FirstPeriodIsLonger(k, quarterly, id);
      } else {
        ProposedFromStart(k, quarterly, id);
      }
    }
  }

  lemma StartIndex(day: nat, quarterly: bool) returns (k: nat)
    requires if quarterly then StartsQuarter(day) else StartsMonth(day)
    ensures day == FirstDay(if quarterly then 3 * k else k)
  {
    hide FirstDay;
    if quarterly {
      k :| day == FirstDay(3 * k);
    } else {
      k :| day == FirstDay(k);
    }
  }

  lemma FirstPeriodIsLonger(k: nat, quarterly: bool, id: int)
    ensures var dateFrom := FirstDay(if quarterly then 3 * k else k);
      !CalendarPeriod(Period(id, dateFrom, ProposedEnd(dateFrom, quarterly, true)), quarterly)
  {
    hide FirstDay, DateFrom, ToDate, ProposedEnd, QuarterStart;
    var m, months := if quarterly then 3 * k else k, if quarterly then 3 else 1;
    ProposedEndClosesMonth(FirstDay(m), quarterly, true);
    DayNumberInjective(ToDate(FirstDay(m)), Date(m, 1));
    forall n: nat | FirstDay(n) == FirstDay(m) ensures n == m {
      SameFirstDay(n, m);
    }
    FirstDayMonotone(m + months, EndMonth(m, quarterly, true));
  }

  lemma SameFirstDay(m: nat, n: nat)
    requires FirstDay(m) == FirstDay(n)
    ensures m == n
  {
    hide FirstDay;
    if m < n {
      FirstDayMonotone(m, n);
    } else if n < m {
      FirstDayMonotone(n, m);
    }
  }

  /** In months: the proposal from the start of month `m` is a whole quarter exactly when the month opens one. */
  lemma QuarterFromMonthExactly(m: nat, id: int)
    ensures WholeQuarter(Period(id, FirstDay(m), ProposedEnd(FirstDay(m), true, false))) <==> m % 3 == 0
  {
    hide FirstDay, DateFrom, ToDate, ProposedEnd, QuarterStart;
    ProposalFollowsTheCalendarExactly(FirstDay(m), true, false, id);
    if m % 3 == 0 {
      assert m == 3 * (m / 3);
    }
    forall k: nat | FirstDay(m) == FirstDay(3 * k) ensures m == 3 * k {
      SameFirstDay(m, 3 * k);
    }
  }

  /** From the second on, whatever the first was, each starts with a month, and with a quarter after a quarterly one. */
  lemma {:induction false} LaterProposalsStartMonths(dateFrom: nat, choices: seq<Choice>, firstPeriod: bool, i: nat)
    requires 1 <= i < |choices|
    ensures i < |Chained(dateFrom, choices, firstPeriod)|
    ensures var p := Chained(dateFrom, choices, firstPeriod)[i];
      && p.dateFrom >= 0 && p.dateTo == ProposedEnd(p.dateFrom, choices[i].quarterly, false)
      && StartsMonth(p.dateFrom) && (choices[i - 1].quarterly ==> StartsQuarter(p.dateFrom))
    decreases |choices|
  {
    hide FirstDay, DateFrom, ToDate, ProposedEnd;
    var month, quarterly := ToDate(dateFrom).month, choices[0].quarterly;
    var m := EndMonth(month, quarterly, firstPeriod);
    ProposedEndClosesMonth(dateFrom, quarterly, firstPeriod);
    var rest := Chained(FirstDay(m), choices[1..], false);
    assert Chained(dateFrom, choices, firstPeriod) == [Period(choices[0].id, dateFrom, FirstDay(m) - 1)] + rest;
    if i == 1 {
      ChainedProposalsTile(FirstDay(m), choices[1..], false);
      if quarterly {
        assert m == 3 * (month / 3 + if firstPeriod then 2 else 1);
      }
    } else {
      LaterProposalsStartMonths(FirstDay(m), choices[1..], false, i - 1);
    }
  }

  /**
   From the second proposal on each is a calendar month or quarter exactly when
   it is monthly or starts with a quarter, as it does after a quarterly one.
   */
  lemma ChainedProposalsFollowTheCalendarExactly(dateFrom: nat, choices: seq<Choice>, firstPeriod: bool, i: nat)
    requires 1 <= i < |choices|
    ensures i < |Chained(dateFrom, choices, firstPeriod)|
    ensures var p := Chained(dateFrom, choices, firstPeriod)[i];
      && p.dateFrom >= 0 && (CalendarPeriod(p, choices[i].quarterly)
         <==> !choices[i].quarterly || StartsQuarter(p.dateFrom))
      && (choices[i - 1].quarterly || choices[i - 1].quarterly == choices[i].quarterly ==>
         CalendarPeriod(p, choices[i].quarterly))
  {
    hide FirstDay, ProposedEnd, CalendarPeriod, Chained;
    LaterProposalsStartMonths(dateFrom, choices, firstPeriod, i);
    var p := Chained(dateFrom, choices, firstPeriod)[i];
    ProposalFollowsTheCalendarExactly(p.dateFrom, choices[i].quarterly, false, p.id);
  }

  /** So switching to quarters in mid-quarter yields one short period: here the last two months of a quarter. */
  lemma PeriodicitySwitchShortensQuarter()
    ensures ProposedEnd(FirstDay(25), true, false) == FirstDay(27) - 1
    ensures !WholeQuarter(Period(0, FirstDay(25), FirstDay(27) - 1))
  {
    hide FirstDay, DateFrom, ToDate, ProposedEnd, QuarterStart;
    DayNumberInjective(ToDate(FirstDay(25)), Date(25, 1));
    ProposedEndClosesMonth(FirstDay(25), true, false);
    assert EndMonth(25, true, false) == 27;
    QuarterFromMonthExactly(25, 0);
  }
}
