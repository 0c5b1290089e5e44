/**
 Programmes of one kiln as imported from its controller. The controller reports
 a programme as it ran; the newest firing's profile is the current one, and what
 the potter decided about a programme is never overwritten.
 */
module KilnProgram {
  import opened Common
  import opened Sorting
  import Schedule = KilnSchedule

  datatype Kind = Bisque | Glaze | Other

  /** A stored ramp-and-hold step. */
  datatype StoredSegment = StoredSegment(number: int, rate: real, target: real, soak: real)

  /** A reported step; missing fields are None, and a zero number counts as missing. */
  datatype ReportedSegment = ReportedSegment(number: Option<int>, rate: Option<real>, target: Option<real>,
      soak: Option<real>)

  /** `firedAt` is the start of the firing the segments were read from. */
  datatype Program = Program(
    name: string, number: int, kind: Kind, fromProvider: bool, firedAt: Option<int>,
    firingHours: real, coolingHours: real, peak: real, segments: seq<StoredSegment>)

  datatype Payload = Payload(name: string, number: int, segments: seq<ReportedSegment>, firedAt: Option<int>)

  const DEFAULT_COOLING := 12.0

  // ------------------------------------------------------------ cleaning

  function Value(x: Option<real>): real {
    if x.Some? then x.value else 0.0
  }

  function Cleaned(s: ReportedSegment, index: int): StoredSegment {
    StoredSegment(if s.number.Some? && s.number.value != 0 then s.number.value else index,
                  Value(s.rate), Value(s.target), Value(s.soak))
  }

  function NumberKey(s: StoredSegment): Key {
    (s.number, 0, 0)
  }

  function CleanedAll(segments: seq<ReportedSegment>): (r: seq<StoredSegment>)
    ensures |r| == |segments| && forall i | 0 <= i < |r| :: r[i] == Cleaned(segments[i], i + 1)
  {
    seq(|segments|, i requires 0 <= i < |segments| => Cleaned(segments[i], i + 1))
  }

  /** Cleaned segments in number order; equal numbers keep the order reported. */
  function SegmentValues(segments: seq<ReportedSegment>): seq<StoredSegment> {
    SortBy(CleanedAll(segments), NumberKey)
  }

  method SegmentValuesLoop(segments: seq<ReportedSegment>) returns (values: seq<StoredSegment>)
    ensures values == SegmentValues(segments)
    ensures SortedBy(values, NumberKey) && multiset(values) == multiset(CleanedAll(segments))
  {
    values := [];
    for i := 0 to |segments|
      invariant values == CleanedAll(segments)[..i]
    {
      var s := segments[i];
      values := values + [StoredSegment(if s.number.GetOr(0) != 0 then s.number.value else i + 1,
                                        s.rate.GetOr(0.0), s.target.GetOr(0.0), s.soak.GetOr(0.0))];
    }
    assert CleanedAll(segments)[..|segments|] == CleanedAll(segments);
    SortBySorted(values, NumberKey);
    values := SortBy(values, NumberKey);
  }

  function Reported(segments: seq<ReportedSegment>): (r: seq<Schedule.Segment>)
    ensures |r| == |segments|
    ensures forall i | 0 <= i < |r| :: r[i].target == segments[i].target
  {
    seq(|segments|, i requires 0 <= i < |segments| =>
      Schedule.Segment(i, i, segments[i].rate, segments[i].target, segments[i].soak))
  }

  function Stored(segments: seq<StoredSegment>): seq<Schedule.Segment> {
    seq(|segments|, i requires 0 <= i < |segments| =>
      Schedule.Segment(i, segments[i].number, Some(segments[i].rate), Some(segments[i].target), Some(segments[i].soak)))
  }

  function PeakOf(segments: seq<ReportedSegment>): Option<real> {
    Schedule.Peak(Reported(segments))
  }

  function InferKind(peak: Option<real>): Kind {
    if peak.None? || peak.value < 600.0 then Other
    else if peak.value < 1100.0 then Bisque
    else Glaze
  }

  function ScheduledHours(segments: seq<StoredSegment>): real {
    Schedule.Length(Stored(segments), Schedule.AMBIENT) / 60.0
  }

  // ------------------------------------------------------------ matching and applying

  /** Position of the programme with the label; |ps| when there is none. */
  function ByName(ps: seq<Program>, name: string): (k: nat)
    ensures k <= |ps| && (k < |ps| ==> ps[k].name == name) && forall i | 0 <= i < k :: ps[i].name != name
  {
    if ps == [] || ps[0].name == name then 0 else 1 + ByName(ps[1..], name)
  }

  function ByNumber(ps: seq<Program>, number: int): (k: nat)
    ensures k <= |ps| && (k < |ps| ==> ps[k].number == number) && forall i | 0 <= i < k :: ps[i].number != number
  {
    if ps == [] || ps[0].number == number then 0 else 1 + ByNumber(ps[1..], number)
  }

  /** By label first, then by controller slot. */
  function Match(ps: seq<Program>, p: Payload): (k: nat)
    ensures k <= |ps|
  {
    if p.name != "" && ByName(ps, p.name) < |ps| then ByName(ps, p.name)
    else if p.number != 0 then ByNumber(ps, p.number)
    else |ps|
  }

  function Label(p: Payload): string {
    if p.name != "" then p.name else "Programme " + Decimal(p.number)
  }

  function Decimal(n: int): string
    decreases if n < 0 then 1 - n else n
  {
    if n < 0 then "-" + Decimal(-n)
    else if n < 10 then ["0123456789"[n]]
    else Decimal(n / 10) + ["0123456789"[n % 10]]
  }

  /** The number a string of digits writes. */
  function Reading(digits: string): int {
    if digits == "" then 0 else 10 * Reading(digits[..|digits| - 1]) + (digits[|digits| - 1] as int - '0' as int)
  }

  lemma {:induction false} DecimalReadsBack(n: int)
    requires n >= 0
    ensures Reading(Decimal(n)) == n && Decimal(n) != "" && (n > 0 ==> Decimal(n)[0] != '0')
    ensures forall c | c in Decimal(n) :: '0' <= c <= '9'
  {
    var digits := Decimal(n);
    if n >= 10 {
      DecimalReadsBack(n / 10);
      assert digits[..|digits| - 1] == Decimal(n / 10);
    } else {
      assert digits[..0] == "";
    }
  }

  function Created(p: Payload): Program {
    var segments := SegmentValues(p.segments);
    Program(Label(p), p.number, InferKind(PeakOf(p.segments)), true, p.firedAt,
            ScheduledHours(segments), DEFAULT_COOLING, Value(PeakOf(p.segments)), segments)
  }

  /** Hand-typed segments are an answer; an older or equal firing is not news. */
  predicate Ignored(program: Program, p: Payload) {
    || (!program.fromProvider && program.segments != [])
    || (program.firedAt.Some? && p.firedAt.Some? && p.firedAt.value <= program.firedAt.value)
  }

  function Refreshed(program: Program, p: Payload): Program {
    var slotted := if program.number == 0 then program.(number := p.number) else program;
    if Ignored(program, p) then slotted
    else slotted.(fromProvider := true,
                  firedAt := if p.firedAt.Some? then p.firedAt else program.firedAt,
                  peak := if PeakOf(p.segments).Some? then PeakOf(p.segments).value else program.peak,
                  segments := SegmentValues(p.segments))
  }

  /** A kiln has one programme of a label; creating a second raises. */
  predicate LabelTaken(ps: seq<Program>, p: Payload) {
    Match(ps, p) == |ps| && ByName(ps, Label(p)) < |ps|
  }

  function Applied(ps: seq<Program>, p: Payload): (r: seq<Program>)
    ensures |ps| <= |r| && r != []
  {
    var k := Match(ps, p);
    if k < |ps| then ps[k := Refreshed(ps[k], p)]
    else if LabelTaken(ps, p) then ps
    else ps + [Created(p)]
  }

  function AppliedAll(ps: seq<Program>, payloads: seq<Payload>): (r: seq<Program>)
    ensures |ps| <= |r| && (payloads != [] ==> r != [])
    decreases |payloads|
  {
    if payloads == [] then ps else AppliedAll(Applied(ps, payloads[0]), payloads[1..])
  }

  // ------------------------------------------------------------ what a new programme shows

  /** A reported segment as it is stored, numbered by its position when it has no number. */
  ghost predicate StoredAs(reported: ReportedSegment, position: int, stored: StoredSegment) {
    && stored.number == (if reported.number.None? || reported.number.value == 0 then position
       else reported.number.value)
    && stored.rate == reported.rate.GetOr(0.0) && stored.target == reported.target.GetOr(0.0)
    && stored.soak == reported.soak.GetOr(0.0)
  }

  /** The reported segments, each stored once, in number order. */
  ghost predicate SegmentsFrom(reported: seq<ReportedSegment>, stored: seq<StoredSegment>) {
    && (forall i, j | 0 <= i < j < |stored| :: stored[i].number <= stored[j].number)
    && exists cleaned: seq<StoredSegment> ::
         |cleaned| == |reported| && multiset(stored) == multiset(cleaned)
         && forall i | 0 <= i < |cleaned| :: StoredAs(reported[i], i + 1, cleaned[i])
  }

  /** Row `i` of a cold kiln, at 20 degrees, that goes through the stored segments. */
  ghost predicate TimedAt(rows: seq<Schedule.Row>, stored: seq<StoredSegment>, i: nat)
    requires i < |rows| == |stored|
  {
    var s := Schedule.Segment(0, 0, Some(stored[i].rate), Some(stored[i].target), Some(stored[i].soak));
    if i == 0 then Schedule.FollowsController(rows[0], s, 20.0, 0.0)
    else Schedule.FollowsController(rows[i], s, rows[i - 1].targetTemperature, rows[i - 1].end)
  }

  ghost predicate TimedFromCold(rows: seq<Schedule.Row>, stored: seq<StoredSegment>) {
    |rows| == |stored| && forall i | 0 <= i < |rows| :: TimedAt(rows, stored, i)
  }

  /** The hours last until the last row's end. */
  ghost predicate HoursOf(hours: real, stored: seq<StoredSegment>) {
    exists rows: seq<Schedule.Row> ::
      TimedFromCold(rows, stored) && hours * 60.0 == if rows == [] then 0.0 else rows[|rows| - 1].end
  }

  lemma ScheduledHoursOf(stored: seq<StoredSegment>)
    ensures HoursOf(ScheduledHours(stored), stored)
  {
    hide Schedule.RampMinutes, Schedule.FollowsController;
    var rows := Schedule.RowsFrom(Stored(stored), 20.0, 0.0);
    forall i | 0 <= i < |rows| ensures TimedAt(rows, stored, i) {
      Schedule.RowsFollowController(Stored(stored), 20.0, 0.0, i);
      SameFieldsFollow(Stored(stored)[i],
        Schedule.Segment(0, 0, Some(stored[i].rate), Some(stored[i].target), Some(stored[i].soak)));
    }
    assert TimedFromCold(rows, stored);
    Schedule.LastRowEnds(Stored(stored), 20.0, 0.0);
  }

  lemma SameFieldsFollow(s: Schedule.Segment, t: Schedule.Segment)
    requires s.rate == t.rate && s.target == t.target && s.soak == t.soak
    ensures forall row, from, since ::
      Schedule.FollowsController(row, s, from, since) == Schedule.FollowsController(row, t, from, since)
  {
  }

  lemma SegmentsAreFrom(reported: seq<ReportedSegment>)
    ensures SegmentsFrom(reported, SegmentValues(reported))
  {
    var cleaned := CleanedAll(reported);
    SortBySorted(cleaned, NumberKey);
    assert multiset(SortBy(cleaned, NumberKey)) == multiset(cleaned);
    forall i | 0 <= i < |cleaned| ensures StoredAs(reported[i], i + 1, cleaned[i]) {
      CleanedIsStored(reported[i], i + 1);
    }
    hide SortBy, StoredAs, CleanedAll;
  }

  lemma CleanedIsStored(s: ReportedSegment, position: int)
    ensures StoredAs(s, position, Cleaned(s, position))
  {
  }

  /** The highest reported target, zero without targets. */
  ghost predicate HighestTarget(peak: real, segments: seq<ReportedSegment>) {
    if forall s | s in segments :: s.target.None? then peak == 0.0
    else (exists s | s in segments :: s.target == Some(peak))
         && forall s | s in segments && s.target.Some? :: s.target.value <= peak
  }

  lemma PeakIsHighest(segments: seq<ReportedSegment>)
    ensures PeakOf(segments).None? <==> forall s | s in segments :: s.target.None?
    ensures HighestTarget(Value(PeakOf(segments)), segments)
  {
    var r := Reported(segments);
    if PeakOf(segments).Some? {
      var t :| t in r && t.target == PeakOf(segments);
      var i :| 0 <= i < |r| && r[i] == t;
      assert segments[i] in segments && segments[i].target == PeakOf(segments);
    }
    forall s | s in segments && s.target.Some?
      ensures PeakOf(segments).Some? && s.target.value <= PeakOf(segments).value
    {
      var i :| 0 <= i < |segments| && segments[i] == s;
      assert r[i] in r && r[i].target == s.target;
    }
  }

  /**
   A programme made from a payload: its segments, the hours they take from cold, twelve hours of
   cooling, the highest reported target as its peak, and glaze from 1100 degrees on, bisque from 600.
   */
  lemma UnknownProgramIsCreated(ps: seq<Program>, p: Payload)
    requires Match(ps, p) == |ps| && !LabelTaken(ps, p)
    ensures |Applied(ps, p)| == |ps| + 1
    ensures var made := Applied(ps, p)[|ps|];
      && made.number == p.number && made.name == (if p.name != "" then p.name else "Programme " + Decimal(p.number))
      && made.fromProvider && made.firedAt == p.firedAt && made.coolingHours == 12.0
      && SegmentsFrom(p.segments, made.segments) && HoursOf(made.firingHours, made.segments)
      && HighestTarget(made.peak, p.segments)
      && (made.kind == Glaze <==> exists s | s in p.segments :: s.target.Some? && s.target.value >= 1100.0)
      && (made.kind == Other <==> forall s | s in p.segments && s.target.Some? :: s.target.value < 600.0)
  {
    hide ScheduledHours, SegmentsFrom, HoursOf, SegmentValues, PeakOf, Match;
    ScheduledHoursOf(SegmentValues(p.segments));
    SegmentsAreFrom(p.segments);
    PeakIsHighest(p.segments);
  }

  class KilnPrograms {
    var programs: seq<Program>

    method ApplyProvider(payload: Payload) returns (k: nat, outcome: Outcome)
      modifies this
      ensures programs == Applied(old(programs), payload)
      ensures outcome == Refused <==> LabelTaken(old(programs), payload)
      ensures outcome == Refused ==> programs == old(programs)
      ensures outcome == Done ==> k == Match(old(programs), payload) < |programs|
    {
      hide Schedule.Peak, ScheduledHours, SortBy, InferKind;
      k, outcome := Match(programs, payload), Done;
      var peak := Schedule.PeakTemperature(Reported(payload.segments));
      var values := SegmentValuesLoop(payload.segments);
      if k == |programs| {
        if ByName(programs, Label(payload)) < |programs| {
          outcome := Refused;
          return;
        }
        var created := Program(Label(payload), payload.number, InferKind(peak), true, payload.firedAt,
                               0.0, DEFAULT_COOLING, Value(peak), values);
        created := created.(firingHours := ScheduledHours(created.segments));
        programs := programs + [created];
        return;
      }
      var program := programs[k];
      if program.number == 0 && payload.number != 0 {
        program := program.(number := payload.number);
      }
      if !program.fromProvider && program.segments != [] {
        programs := programs[k := program];
        return;
      }
      if program.firedAt.Some? && payload.firedAt.Some? && payload.firedAt.value <= program.firedAt.value {
        programs := programs[k := program];
        return;
      }
      programs := programs[k := program.(
        fromProvider := true,
        firedAt := if payload.firedAt.Some? then payload.firedAt else program.firedAt,
        peak := if peak.Some? then peak.value else program.peak,
        segments := values)];
    }
  }

  // ------------------------------------------------------------ what an import never touches

  ghost predicate NotEarlier(before: Option<int>, after: Option<int>) {
    before.Some? ==> after.Some? && before.value <= after.value
  }

  /**
   Name, kind, declared hours, cooling hold and hand-typed segments stay; the slot once
   known stays; the firing date never goes back.
   */
  ghost predicate KeepsAnswers(before: Program, after: Program) {
    && after.name == before.name && after.kind == before.kind
    && after.firingHours == before.firingHours && after.coolingHours == before.coolingHours
    && (before.number != 0 ==> after.number == before.number)
    && (!before.fromProvider && before.segments != [] ==> after == before.(number := after.number))
    && (before.fromProvider ==> after.fromProvider)
    && NotEarlier(before.firedAt, after.firedAt)
  }

  /** Over any series of payloads, whatever they claim about names and slots. */
  lemma {:induction false} ImportsKeepAnswers(ps: seq<Program>, payloads: seq<Payload>, i: nat)
    requires i < |ps|
    ensures i < |AppliedAll(ps, payloads)| && KeepsAnswers(ps[i], AppliedAll(ps, payloads)[i])
    decreases |payloads|
  {
    hide SegmentValues, PeakOf, Created, Match;
    if payloads != [] {
      var next := Applied(ps, payloads[0]);
      assert i < |next| && KeepsAnswers(ps[i], next[i]);
      ImportsKeepAnswers(next, payloads[1..], i);
    }
  }

  // ------------------------------------------------------------ any order, any repeats

  /** Payloads of one controller slot, dated, one profile per firing time. */
  ghost predicate OneSlot(payloads: seq<Payload>, name: string, number: int) {
    && name != "" && number != 0
    && (forall p | p in payloads :: p.name == name && p.number == number && p.firedAt.Some?)
    && (forall p, q | p in payloads && q in payloads && p.firedAt == q.firedAt :: p == q)
  }

  ghost predicate Newest(payloads: seq<Payload>, newest: Payload) {
    newest in payloads && newest.firedAt.Some?
    && forall p | p in payloads :: p.firedAt.Some? && p.firedAt.value <= newest.firedAt.value
  }

  /** The programme the slot's payloads go to: known by its slot, whatever label it was given, or by its label. */
  ghost predicate Slot(ps: seq<Program>, k: nat, name: string, number: int) {
    && k < |ps| && (ps[k].number == number || ps[k].name == name)
    && (forall i | 0 <= i < |ps| && i != k :: ps[i].number != number && ps[i].name != name)
  }

  /** What the programme shows after the newest payload seen so far. */
  ghost predicate Shows(program: Program, p: Payload) {
    program.fromProvider && program.firedAt == p.firedAt && program.segments == SegmentValues(p.segments)
  }

  lemma SlotIsMatched(ps: seq<Program>, k: nat, name: string, number: int, p: Payload)
    requires Slot(ps, k, name, number) && p.name == name && p.number == number && name != "" && number != 0
    ensures Match(ps, p) == k
  {
    var i, j := ByName(ps, name), ByNumber(ps, number);
    assert ps[k].name == name ==> i <= k;
    assert ps[k].number == number ==> j <= k;
  }

  /** The programme also shows the peak of the payload it shows, when that payload has one. */
  ghost predicate ShowsPeak(program: Program, p: Payload) {
    PeakOf(p.segments).Some? ==> program.peak == PeakOf(p.segments).value
  }

  lemma {:induction false} SlotConverges(ps: seq<Program>, k: nat, name: string, number: int,
                                         seen: seq<Payload>, current: Payload, payloads: seq<Payload>, newest: Payload)
    requires Slot(ps, k, name, number) && OneSlot(seen + payloads, name, number)
    requires Newest(seen, current) && Newest(seen + payloads, newest)
    requires Shows(ps[k], current) && ShowsPeak(ps[k], current)
    ensures k < |AppliedAll(ps, payloads)|
    ensures Shows(AppliedAll(ps, payloads)[k], newest) && ShowsPeak(AppliedAll(ps, payloads)[k], newest)
    ensures newest == current && ps[k].number != 0 ==> AppliedAll(ps, payloads)[k] == ps[k]
    decreases |payloads|
  {
    hide SegmentValues, PeakOf, Created;
    if payloads == [] {
      assert seen + payloads == seen;
      assert newest in seen && current in seen;
    } else {
      var p := payloads[0];
      assert p in seen + payloads && current in seen + payloads;
      SlotIsMatched(ps, k, name, number, p);
      var next := if p.firedAt.value <= current.firedAt.value then current else p;
      assert seen + [p] + payloads[1..] == seen + payloads;
      assert Newest(seen + [p], next);
      SlotConverges(Applied(ps, p), k, name, number, seen + [p], next, payloads[1..], newest);
    }
  }

  /** No programme of the kiln answers to the slot's label or number yet. */
  ghost predicate Unknown(ps: seq<Program>, name: string, number: int) {
    forall q | q in ps :: q.name != name && q.number != number
  }

  lemma FirstCreates(ps: seq<Program>, payloads: seq<Payload>, name: string, number: int)
    requires payloads != [] && OneSlot(payloads, name, number) && Unknown(ps, name, number)
    ensures var p, first := payloads[0], Applied(ps, payloads[0]);
      p in payloads && first == ps + [Created(p)] && Slot(first, |ps|, name, number)
      && Shows(first[|ps|], p) && ShowsPeak(first[|ps|], p) && Newest([p], p)
  {
    hide SegmentValues, PeakOf;
    var p := payloads[0];
    assert p in payloads;
    assert Match(ps, p) == |ps|;
    var first := Applied(ps, p);
    forall i | 0 <= i < |ps| ensures first[i].number != number && first[i].name != name {
      assert ps[i] in ps;
    }
  }

  /**
   The first payload creates the programme; after all of them it shows the
   newest, in whatever order and however often they came.
   */
  lemma ImportConverges(ps: seq<Program>, payloads: seq<Payload>, name: string, number: int, newest: Payload)
    requires payloads != [] && OneSlot(payloads, name, number) && Newest(payloads, newest) && Unknown(ps, name, number)
    ensures |ps| < |AppliedAll(ps, payloads)|
    ensures var r := AppliedAll(ps, payloads)[|ps|]; Shows(r, newest) && ShowsPeak(r, newest) && r.name == name
  {
    hide SegmentValues, PeakOf, Applied, Created, Shows, ShowsPeak, Slot, Newest;
    var p := payloads[0];
    FirstCreates(ps, payloads, name, number);
    assert [p] + payloads[1..] == payloads;
    CreatedName(p);
    SlotConverges(Applied(ps, p), |ps|, name, number, [p], p, payloads[1..], newest);
    ImportsKeepAnswers(Applied(ps, p), payloads[1..], |ps|);
  }

  lemma CreatedName(p: Payload)
    ensures p.name != "" ==> Created(p).name == p.name
    ensures Created(p).peak == Value(PeakOf(p.segments)) && Created(p).number == p.number
  {
  }

  ghost predicate SamePayloads(a: seq<Payload>, b: seq<Payload>) {
    forall p :: p in a <==> p in b
  }

  /** So two series with the same payloads end with the same profile. */
  lemma OrderAndRepeatsDoNotMatter(ps: seq<Program>, a: seq<Payload>, b: seq<Payload>, name: string, number: int,
                                   newest: Payload)
    requires a != [] && OneSlot(a, name, number) && SamePayloads(a, b) && Newest(a, newest) && Unknown(ps, name, number)
    ensures |ps| < |AppliedAll(ps, a)| && |ps| < |AppliedAll(ps, b)|
    ensures var x, y := AppliedAll(ps, a)[|ps|], AppliedAll(ps, b)[|ps|];
      x.segments == y.segments && x.firedAt == y.firedAt && x.name == y.name == name
  {
    hide SegmentValues, PeakOf, Applied, Ignored;
    assert a[0] in b;
    ImportConverges(ps, a, name, number, newest);
    ImportConverges(ps, b, name, number, newest);
  }

  // ------------------------------------------------------------ a programme already known

  /** Payloads the programme takes: none over hand-typed segments, otherwise those newer than its profile. */
  predicate News(program: Program, p: Payload) {
    !Ignored(program, p)
  }

  /** Payloads that are no news change nothing but a slot number not known before. */
  lemma {:induction false} NoNewsNoChange(ps: seq<Program>, k: nat, name: string, number: int, payloads: seq<Payload>)
    requires Slot(ps, k, name, number) && OneSlot(payloads, name, number) && forall p | p in payloads :: !News(ps[k], p)
    ensures k < |AppliedAll(ps, payloads)|
    ensures AppliedAll(ps, payloads)[k] == ps[k].(number := AppliedAll(ps, payloads)[k].number)
    decreases |payloads|
  {
    hide SegmentValues, PeakOf, Created, LabelTaken;
    if payloads != [] {
      var p := payloads[0];
      assert p in payloads;
      SlotIsMatched(ps, k, name, number, p);
      var next := Applied(ps, p);
      assert next[k] == ps[k].(number := next[k].number);
      forall q | q in payloads[1..] ensures !News(next[k], q) {
        assert q in payloads;
      }
      NoNewsNoChange(next, k, name, number, payloads[1..]);
    }
  }

  /**
   A programme already known, perhaps renamed, ends with the newest payload
   when that is news to it, and stays as it was when it is not.
   */
  lemma {:induction false} KnownSlotConverges(ps: seq<Program>, k: nat, name: string, number: int,
                                              payloads: seq<Payload>, newest: Payload)
    requires Slot(ps, k, name, number) && OneSlot(payloads, name, number) && Newest(payloads, newest)
    ensures k < |AppliedAll(ps, payloads)|
    ensures var r := AppliedAll(ps, payloads)[k];
      && r.name == ps[k].name
      && if News(ps[k], newest) then Shows(r, newest) && ShowsPeak(r, newest) else r == ps[k].(number := r.number)
    decreases |payloads|
  {
    hide SegmentValues, PeakOf, Applied, Shows, ShowsPeak;
    ImportsKeepAnswers(ps, payloads, k);
    if !News(ps[k], newest) {
      NoNewsNoChange(ps, k, name, number, payloads);
    } else {
      var p := payloads[0];
      assert p in payloads;
      FirstOfKnown(ps, k, name, number, p);
      if News(ps[k], p) {
        assert [p] + payloads[1..] == payloads;
        SlotConverges(Applied(ps, p), k, name, number, [p], p, payloads[1..], newest);
      } else {
        assert newest != p && Newest(payloads[1..], newest);
        KnownSlotConverges(Applied(ps, p), k, name, number, payloads[1..], newest);
      }
    }
  }

  /** The first payload is shown when it is news, and otherwise changes nothing but an unknown slot number. */
  lemma FirstOfKnown(ps: seq<Program>, k: nat, name: string, number: int, p: Payload)
    requires Slot(ps, k, name, number) && p.name == name && p.number == number && name != "" && number != 0
      && p.firedAt.Some?
    ensures var next := Applied(ps, p);
      && Slot(next, k, name, number)
      && if News(ps[k], p) then (Shows(next[k], p) && ShowsPeak(next[k], p))
         else next[k] == ps[k].(number := next[k].number)
  {
    hide SegmentValues, PeakOf, Created, LabelTaken;
    SlotIsMatched(ps, k, name, number, p);
  }

  /** So there too order and repeats do not matter. */
  lemma KnownOrderAndRepeatsDoNotMatter(ps: seq<Program>, k: nat, a: seq<Payload>, b: seq<Payload>, name: string,
                                        number: int, newest: Payload)
    requires Slot(ps, k, name, number) && OneSlot(a, name, number) && SamePayloads(a, b) && Newest(a, newest)
    ensures k < |AppliedAll(ps, a)| && k < |AppliedAll(ps, b)|
    ensures var x, y := AppliedAll(ps, a)[k], AppliedAll(ps, b)[k];
      x.segments == y.segments && x.firedAt == y.firedAt && x.name == y.name == ps[k].name
  {
    hide SegmentValues, PeakOf, Applied, Ignored;
    KnownSlotConverges(ps, k, name, number, a, newest);
    KnownSlotConverges(ps, k, name, number, b, newest);
  }

  // ------------------------------------------------------------ the peak

  function FinalPeak(ps: seq<Program>, payloads: seq<Payload>): real {
    var r := AppliedAll(ps, payloads);
    if |ps| < |r| then r[|ps|].peak else 0.0
  }

  lemma {:induction false} ZeroPeakStays(ps: seq<Program>, k: nat, payloads: seq<Payload>)
    requires k < |ps| && ps[k].peak == 0.0 && forall q | q in payloads :: Value(PeakOf(q.segments)) == 0.0
    ensures k < |AppliedAll(ps, payloads)| && AppliedAll(ps, payloads)[k].peak == 0.0
    decreases |payloads|
  {
    hide PeakOf, Match, SegmentValues;
    if payloads != [] {
      assert payloads[0] in payloads;
      ZeroPeakStays(Applied(ps, payloads[0]), k, payloads[1..]);
    }
  }

  /** When the newest firing names a target, or no firing names a target other than zero. */
  predicate PeakDecided(payloads: seq<Payload>, newest: Payload) {
    PeakOf(newest.segments).Some? || forall q | q in payloads :: Value(PeakOf(q.segments)) == 0.0
  }

  lemma DecidedPeakConverges(ps: seq<Program>, payloads: seq<Payload>, name: string, number: int, newest: Payload)
    requires payloads != [] && OneSlot(payloads, name, number) && Newest(payloads, newest) && Unknown(ps, name, number)
    requires PeakDecided(payloads, newest)
    ensures FinalPeak(ps, payloads) == Value(PeakOf(newest.segments))
  {
    hide SegmentValues, PeakOf, Applied, Created;
    ImportConverges(ps, payloads, name, number, newest);
    if PeakOf(newest.segments).None? {
      var p := payloads[0];
      FirstCreates(ps, payloads, name, number);
      CreatedName(p);
      ZeroPeakStays(Applied(ps, p), |ps|, payloads[1..]);
    }
  }

  lemma NewestFirstLeavesNoPeak(ps: seq<Program>, payloads: seq<Payload>, name: string, number: int, newest: Payload)
    requires OneSlot(payloads, name, number) && Newest(payloads, newest) && Unknown(ps, name, number)
    requires PeakOf(newest.segments).None?
    ensures FinalPeak(ps, [newest] + payloads) == 0.0
  {
    hide SegmentValues, PeakOf, Match, Created;
    var a := [newest] + payloads;
    FirstCreates(ps, a, name, number);
    CreatedName(newest);
    assert a[1..] == payloads;
    SlotConverges(ps + [Created(newest)], |ps|, name, number, [newest], newest, payloads, newest);
  }

  lemma OtherFirstKeepsItsPeak(ps: seq<Program>, payloads: seq<Payload>, name: string, number: int, newest: Payload,
                               q: Payload)
    requires OneSlot(payloads, name, number) && Newest(payloads, newest) && Unknown(ps, name, number)
    requires q in payloads && PeakOf(newest.segments).None? && Value(PeakOf(q.segments)) != 0.0
    ensures FinalPeak(ps, [q, newest] + payloads) == Value(PeakOf(q.segments))
  {
    hide SegmentValues, PeakOf, Match, Created;
    var b := [q, newest] + payloads;
    var k := |ps|;
    FirstCreates(ps, b, name, number);
    CreatedName(q);
    assert b[1..] == [newest] + payloads && b[1..][1..] == payloads;
    var second := Applied(ps + [Created(q)], newest);
    assert q.firedAt.value < newest.firedAt.value;
    SlotIsMatched(ps + [Created(q)], k, name, number, newest);
    assert second[k].peak == Value(PeakOf(q.segments));
    SlotConverges(second, k, name, number, [q, newest], newest, payloads, newest);
    assert AppliedAll(ps, b) == AppliedAll(second, payloads);
  }

  /** Otherwise the newest firing first leaves no peak, and another firing before it leaves that firing's. */
  lemma UndecidedPeakDiffers(ps: seq<Program>, payloads: seq<Payload>, name: string, number: int, newest: Payload,
                             q: Payload)
    requires OneSlot(payloads, name, number) && Newest(payloads, newest) && Unknown(ps, name, number)
    requires q in payloads && PeakOf(newest.segments).None? && Value(PeakOf(q.segments)) != 0.0
    ensures var a, b := [newest] + payloads, [q, newest] + payloads;
      SamePayloads(a, payloads) && SamePayloads(b, payloads)
      && FinalPeak(ps, a) == 0.0 && FinalPeak(ps, b) == Value(PeakOf(q.segments))
  {
    hide PeakOf, FinalPeak;
    NewestFirstLeavesNoPeak(ps, payloads, name, number, newest);
    OtherFirstKeepsItsPeak(ps, payloads, name, number, newest, q);
  }

  /** The peak is independent of order and repeats exactly when it is decided. */
  lemma PeakConvergesExactly(ps: seq<Program>, payloads: seq<Payload>, name: string, number: int, newest: Payload)
    requires payloads != [] && OneSlot(payloads, name, number) && Newest(payloads, newest) && Unknown(ps, name, number)
    ensures PeakDecided(payloads, newest) <==>
      forall a, b | SamePayloads(a, payloads) && SamePayloads(b, payloads) :: FinalPeak(ps, a) == FinalPeak(ps, b)
  {
    hide SegmentValues, PeakOf, FinalPeak;
    if PeakDecided(payloads, newest) {
      forall a | SamePayloads(a, payloads) ensures FinalPeak(ps, a) == Value(PeakOf(newest.segments)) {
        assert payloads[0] in a;
        DecidedPeakConverges(ps, a, name, number, newest);
      }
    } else {
      var q :| q in payloads && Value(PeakOf(q.segments)) != 0.0;
      UndecidedPeakDiffers(ps, payloads, name, number, newest, q);
    }
  }

  // ------------------------------------------------------------ the peak of a programme already known

  function PeakAt(ps: seq<Program>, k: nat, payloads: seq<Payload>): real {
    var r := AppliedAll(ps, payloads);
    if k < |r| then r[k].peak else 0.0
  }

  /**
   When the newest payload is no news or names a target, or no news names a target other
   than the peak already stored.
   */
  predicate KnownPeakDecided(program: Program, payloads: seq<Payload>, newest: Payload) {
    || !News(program, newest) || PeakOf(newest.segments).Some?
    || forall q | q in payloads && News(program, q) && PeakOf(q.segments).Some? ::
       PeakOf(q.segments).value == program.peak
  }

  /** What the peak becomes when it is decided. */
  function DecidedPeak(program: Program, newest: Payload): real {
    if News(program, newest) && PeakOf(newest.segments).Some? then PeakOf(newest.segments).value else program.peak
  }

  /** Payloads that name no other target leave the peak. */
  lemma {:induction false} SamePeakStays(ps: seq<Program>, k: nat, name: string, number: int, payloads: seq<Payload>,
                                         peak: real)
    requires Slot(ps, k, name, number) && OneSlot(payloads, name, number) && ps[k].peak == peak
    requires forall q | q in payloads && News(ps[k], q) && PeakOf(q.segments).Some? :: PeakOf(q.segments).value == peak
    ensures PeakAt(ps, k, payloads) == peak
    decreases |payloads|
  {
    hide SegmentValues, PeakOf, Created, LabelTaken;
    if payloads != [] {
      var p := payloads[0];
      assert p in payloads;
      SlotIsMatched(ps, k, name, number, p);
      var next := Applied(ps, p);
      forall q | q in payloads[1..] && News(next[k], q) ensures News(ps[k], q) {
        assert q in payloads;
      }
      SamePeakStays(next, k, name, number, payloads[1..], peak);
    }
  }

  lemma KnownDecidedPeak(ps: seq<Program>, k: nat, payloads: seq<Payload>, name: string, number: int, newest: Payload)
    requires Slot(ps, k, name, number) && OneSlot(payloads, name, number) && Newest(payloads, newest)
    requires KnownPeakDecided(ps[k], payloads, newest)
    ensures PeakAt(ps, k, payloads) == DecidedPeak(ps[k], newest)
  {
    hide SegmentValues, PeakOf, Applied, Created;
    KnownSlotConverges(ps, k, name, number, payloads, newest);
    if News(ps[k], newest) && PeakOf(newest.segments).None? {
      SamePeakStays(ps, k, name, number, payloads, ps[k].peak);
    }
  }

  /** The newest first keeps the stored peak; a named target before it stays. */
  lemma KnownUndecidedPeakDiffers(ps: seq<Program>, k: nat, payloads: seq<Payload>, name: string, number: int,
                                  newest: Payload, q: Payload)
    requires Slot(ps, k, name, number) && OneSlot(payloads, name, number) && Newest(payloads, newest)
    requires News(ps[k], newest) && PeakOf(newest.segments).None?
    requires q in payloads && News(ps[k], q) && PeakOf(q.segments).Some?
    ensures PeakAt(ps, k, [newest] + payloads) == ps[k].peak
    ensures PeakAt(ps, k, [q, newest] + payloads) == PeakOf(q.segments).value
  {
    hide SegmentValues, PeakOf, Created, LabelTaken;
    NewestThenNothingNew(ps, k, payloads, name, number, newest);
    var second := Applied(ps, q);
    SlotIsMatched(ps, k, name, number, q);
    assert q.firedAt.value <= newest.firedAt.value && q != newest;
    assert News(second[k], newest) && Slot(second, k, name, number);
    NewestThenNothingNew(second, k, payloads, name, number, newest);
    assert ([q, newest] + payloads)[1..] == [newest] + payloads;
  }

  lemma NewestThenNothingNew(ps: seq<Program>, k: nat, payloads: seq<Payload>, name: string, number: int,
                             newest: Payload)
    requires Slot(ps, k, name, number) && OneSlot(payloads, name, number) && Newest(payloads, newest)
    requires News(ps[k], newest) && PeakOf(newest.segments).None?
    ensures PeakAt(ps, k, [newest] + payloads) == ps[k].peak
  {
    hide SegmentValues, PeakOf, Created, LabelTaken;
    SlotIsMatched(ps, k, name, number, newest);
    assert ([newest] + payloads)[1..] == payloads;
    NoNewsNoChange(Applied(ps, newest), k, name, number, payloads);
  }

  /** From a known programme too the peak is independent of order and repeats exactly when it is decided. */
  lemma KnownPeakConvergesExactly(ps: seq<Program>, k: nat, payloads: seq<Payload>, name: string, number: int,
                                  newest: Payload)
    requires Slot(ps, k, name, number) && OneSlot(payloads, name, number) && Newest(payloads, newest)
    ensures KnownPeakDecided(ps[k], payloads, newest) <==>
      forall a, b | SamePayloads(a, payloads) && SamePayloads(b, payloads) :: PeakAt(ps, k, a) == PeakAt(ps, k, b)
  {
    hide SegmentValues, PeakOf, PeakAt, Ignored, SortBy;
    if KnownPeakDecided(ps[k], payloads, newest) {
      forall a | SamePayloads(a, payloads) ensures PeakAt(ps, k, a) == DecidedPeak(ps[k], newest) {
        KnownDecidedPeak(ps, k, a, name, number, newest);
      }
    } else {
      var q :| q in payloads && News(ps[k], q) && PeakOf(q.segments).Some? && PeakOf(q.segments).value != ps[k].peak;
      KnownUndecidedPeakDiffers(ps, k, payloads, name, number, newest, q);
      var a, b := [newest] + payloads, [q, newest] + payloads;
      assert SamePayloads(a, payloads) && SamePayloads(b, payloads);
    }
  }
}
