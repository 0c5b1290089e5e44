/** How long a kiln programme takes, from its ramp and hold segments. Times are minutes. */
module KilnSchedule {
  import opened Common
  import opened Sorting

  /** A field that is missing or unreadable is None. */
  datatype Segment = Segment(id: int, number: int, rate: Option<real>, target: Option<real>, soak: Option<real>)

  datatype Row = Row(startTemperature: real, targetTemperature: real, ramp: real, soak: real, start: real, end: real)

  const AMBIENT := 20.0
  const FULL_POWER_RATE := 999.0

  function AbsReal(x: real): real {
    if x >= 0.0 then x else -x
  }

  /** Zero at full power, and without a usable rate. */
  function RampMinutes(rate: Option<real>, from: real, to: real): (r: real)
    ensures r >= 0.0
  {
    if rate.None? || rate.value <= 0.0 || rate.value >= FULL_POWER_RATE then 0.0
    else
      QuotientNonNegative(60.0 * AbsReal(to - from), rate.value);
      60.0 * AbsReal(to - from) / rate.value
  }

  lemma QuotientNonNegative(x: real, r: real)
    requires x >= 0.0 && r > 0.0
    ensures x / r >= 0.0
  {
  }

  /** Where a segment ends: its target, or where it started. */
  function EndOf(segment: Segment, from: real): real {
    if segment.target.Some? then segment.target.value else from
  }

  function Soak(segment: Segment): real {
    if segment.soak.Some? then segment.soak.value else 0.0
  }

  function Duration(segment: Segment, from: real): real {
    RampMinutes(segment.rate, from, EndOf(segment, from)) + Soak(segment)
  }

  function RowOf(segment: Segment, from: real, elapsed: real): Row {
    Row(from, EndOf(segment, from), RampMinutes(segment.rate, from, EndOf(segment, from)), Soak(segment),
        elapsed, elapsed + Duration(segment, from))
  }

  /** Rows of segments walked from a temperature, `elapsed` minutes into the programme. */
  function RowsFrom(segments: seq<Segment>, from: real, elapsed: real): (r: seq<Row>)
    ensures |r| == |segments|
    decreases |segments|
  {
    if segments == [] then []
    else [RowOf(segments[0], from, elapsed)]
         + RowsFrom(segments[1..], EndOf(segments[0], from), elapsed + Duration(segments[0], from))
  }

  /** Temperature after the last segment. */
  function EndTemperature(segments: seq<Segment>, from: real): real
    decreases |segments|
  {
    if segments == [] then from else EndTemperature(segments[1..], EndOf(segments[0], from))
  }

  /** Sum of all ramps and holds. */
  function Length(segments: seq<Segment>, from: real): real
    decreases |segments|
  {
    if segments == [] then 0.0
    else Duration(segments[0], from) + Length(segments[1..], EndOf(segments[0], from))
  }

  /**
   What a row says, read off its segment and the row before: a ramp at a rate below full power
   lasts as long as the rate in degrees an hour takes, any other ramp nothing.
   */
  ghost predicate FollowsController(row: Row, segment: Segment, from: real, since: real) {
    && row.startTemperature == from && row.start == since && row.end == since + row.ramp + row.soak
    && row.targetTemperature == segment.target.GetOr(from) && row.soak == segment.soak.GetOr(0.0)
    && var degrees := if row.targetTemperature >= from then row.targetTemperature - from
                      else from - row.targetTemperature;
       match segment.rate {
         case Some(rate) => if 0.0 < rate < 999.0 then row.ramp * rate == 60.0 * degrees else row.ramp == 0.0
         case None => row.ramp == 0.0
       }
  }

  /** Each row goes on from the one before it, the first from the given temperature and minute. */
  ghost predicate RowFollows(rows: seq<Row>, segments: seq<Segment>, i: nat, from: real, elapsed: real)
    requires i < |rows| == |segments|
  {
    if i == 0 then FollowsController(rows[0], segments[0], from, elapsed)
    else FollowsController(rows[i], segments[i], rows[i - 1].targetTemperature, rows[i - 1].end)
  }

  lemma QuotientTimes(x: real, r: real)
    requires r != 0.0
    ensures x / r * r == x
  {
  }

  /** Every row starts where and when the one before it ends, the first at the ambient temperature. */
  lemma {:induction false} RowsFollowController(segments: seq<Segment>, from: real, elapsed: real, i: nat)
    requires i < |segments|
    ensures RowFollows(RowsFrom(segments, from, elapsed), segments, i, from, elapsed)
    decreases i
  {
    var segment := segments[0];
    if i == 0 {
      if segment.rate.Some? && 0.0 < segment.rate.value < 999.0 {
        QuotientTimes(60.0 * AbsReal(EndOf(segment, from) - from), segment.rate.value);
      }
    } else {
      hide RampMinutes;
      var next, since := EndOf(segment, from), elapsed + Duration(segment, from);
      RowsFollowController(segments[1..], next, since, i - 1);
      var rows, rest := RowsFrom(segments, from, elapsed), RowsFrom(segments[1..], next, since);
      assert rows[i] == rest[i - 1] && rows[i - 1] == if i == 1 then rows[0] else rest[i - 2];
    }
  }

  method Schedule(segments: seq<Segment>, ambient: real) returns (rows: seq<Row>)
    ensures rows == RowsFrom(segments, ambient, 0.0)
  {
    var startTemperature := ambient;
    var elapsed := 0.0;
    rows := [];
    for i := 0 to |segments|
      invariant rows + RowsFrom(segments[i..], startTemperature, elapsed) == RowsFrom(segments, ambient, 0.0)
    {
      hide RampMinutes;
      var segment := segments[i];
      assert segments[i..][0] == segment && segments[i..][1..] == segments[i + 1..];
      var target := if segment.target.Some? then segment.target.value else startTemperature;
      var soak := if segment.soak.Some? then segment.soak.value else 0.0;
      var climb := RampMinutes(segment.rate, startTemperature, target);
      var row := Row(startTemperature, target, climb, soak, elapsed, elapsed + (climb + soak));
      AppendOne(rows, row, RowsFrom(segments[i + 1..], target, elapsed + (climb + soak)));
      rows := rows + [row];
      elapsed := elapsed + (climb + soak);
      startTemperature := target;
    }
  }

  method TotalMinutes(segments: seq<Segment>, ambient: real) returns (total: real)
    ensures total == Length(segments, ambient)
  {
    var rows := Schedule(segments, ambient);
    LastRowEnds(segments, ambient, 0.0);
    total := if |rows| > 0 then rows[|rows| - 1].end else 0.0;
  }

  lemma {:induction false} LastRowEnds(segments: seq<Segment>, from: real, elapsed: real)
    ensures segments != [] ==> RowsFrom(segments, from, elapsed)[|segments| - 1].end == elapsed + Length(segments, from)
    decreases |segments|
  {
    if |segments| > 1 {
      LastRowEnds(segments[1..], EndOf(segments[0], from), elapsed + Duration(segments[0], from));
    } else if |segments| == 1 {
      assert Length(segments[1..], EndOf(segments[0], from)) == 0.0;
    }
  }

  /** The highest target, if any segment has one. */
  method PeakTemperature(segments: seq<Segment>) returns (peak: Option<real>)
    ensures peak == Peak(segments)
  {
    peak := None;
    for i := 0 to |segments|
      invariant peak == Peak(segments[..i])
    {
      assert segments[..i + 1][..i] == segments[..i];
      if segments[i].target.Some? && (peak.None? || segments[i].target.value > peak.value) {
        peak := segments[i].target;
      }
    }
    assert segments[..|segments|] == segments;
  }

  function Peak(segments: seq<Segment>): (r: Option<real>)
    ensures r.None? <==> forall s | s in segments :: s.target.None?
    ensures r.Some? ==> (exists s | s in segments :: s.target == r)
    ensures r.Some? ==> forall s | s in segments && s.target.Some? :: s.target.value <= r.value
  {
    if segments == [] then None
    else
      var rest, last := Peak(segments[..|segments| - 1]), segments[|segments| - 1];
      assert segments == segments[..|segments| - 1] + [last];
      if last.target.Some? && (rest.None? || last.target.value > rest.value) then last.target else rest
  }

  // ------------------------------------------------------------ programmes put together

  function Shifted(rows: seq<Row>, delta: real): (r: seq<Row>)
    ensures |r| == |rows| && forall i | 0 <= i < |r| ::
      r[i] == rows[i].(start := rows[i].start + delta, end := rows[i].end + delta)
  {
    seq(|rows|, i requires 0 <= i < |rows| => rows[i].(start := rows[i].start + delta, end := rows[i].end + delta))
  }

  lemma {:induction false} RowsShift(segments: seq<Segment>, from: real, elapsed: real, delta: real)
    ensures RowsFrom(segments, from, elapsed + delta) == Shifted(RowsFrom(segments, from, elapsed), delta)
    decreases |segments|
  {
    if segments != [] {
      hide RampMinutes, EndOf, Soak, Duration;
      var next, d := EndOf(segments[0], from), Duration(segments[0], from);
      RowsShift(segments[1..], next, elapsed + d, delta);
      assert elapsed + delta + d == elapsed + d + delta;
      assert RowsFrom(segments, from, elapsed + delta)
          == [RowOf(segments[0], from, elapsed + delta)] + RowsFrom(segments[1..], next, elapsed + d + delta);
    }
  }

  lemma {:induction false} LengthConcatenation(a: seq<Segment>, b: seq<Segment>, from: real)
    ensures Length(a + b, from) == Length(a, from) + Length(b, EndTemperature(a, from))
    ensures EndTemperature(a + b, from) == EndTemperature(b, EndTemperature(a, from))
    decreases |a|
  {
    hide Duration, EndOf;
    if a == [] {
      assert a + b == b;
    } else {
      assert (a + b)[1..] == a[1..] + b;
      LengthConcatenation(a[1..], b, EndOf(a[0], from));
    }
  }

  lemma {:induction false} WalkConcatenation(a: seq<Segment>, b: seq<Segment>, from: real, elapsed: real)
    ensures RowsFrom(a + b, from, elapsed)
         == RowsFrom(a, from, elapsed) + RowsFrom(b, EndTemperature(a, from), elapsed + Length(a, from))
    decreases |a|
  {
    hide Duration, EndOf, RowOf;
    var tail := RowsFrom(b, EndTemperature(a, from), elapsed + Length(a, from));
    if a == [] {
      assert a + b == b && RowsFrom(a, from, elapsed) + tail == tail;
    } else {
      var next, later := EndOf(a[0], from), elapsed + Duration(a[0], from);
      assert (a + b)[1..] == a[1..] + b && (a + b)[0] == a[0];
      WalkConcatenation(a[1..], b, next, later);
      assert later + Length(a[1..], next) == elapsed + Length(a, from);
      var rest := RowsFrom(a[1..], next, later);
      PrependOne(RowOf(a[0], from, elapsed), rest, tail);
    }
  }

  /**
   Scheduling a concatenation is scheduling the first part, then the second from where it
   left off, shifted in time.
   */
  lemma ConcatenationShifts(a: seq<Segment>, b: seq<Segment>, ambient: real)
    ensures RowsFrom(a + b, ambient, 0.0)
         == RowsFrom(a, ambient, 0.0) + Shifted(RowsFrom(b, EndTemperature(a, ambient), 0.0), Length(a, ambient))
  {
    WalkConcatenation(a, b, ambient, 0.0);
    RowsShift(b, EndTemperature(a, ambient), 0.0, Length(a, ambient));
  }

  // ------------------------------------------------------------ splitting and detours

  /** One segment that goes by way of `mid`: a ramp without hold, then the segment itself. */
  function Via(segment: Segment, mid: real): seq<Segment> {
    [segment.(target := Some(mid), soak := Some(0.0)), segment]
  }

  lemma RampBounds(rate: Option<real>, from: real, mid: real, to: real)
    ensures RampMinutes(rate, from, mid) + RampMinutes(rate, mid, to) >= RampMinutes(rate, from, to)
    ensures from <= mid <= to || to <= mid <= from ==>
      RampMinutes(rate, from, mid) + RampMinutes(rate, mid, to) == RampMinutes(rate, from, to)
  {
    if rate.Some? && 0.0 < rate.value < FULL_POWER_RATE {
      var x, y, z := 60.0 * AbsReal(mid - from), 60.0 * AbsReal(to - mid), 60.0 * AbsReal(to - from);
      SumQuotient(x, y, rate.value);
      QuotientNonNegative(x + y - z, rate.value);
      SumQuotient(x + y - z, z, rate.value);
    }
  }

  lemma SumQuotient(x: real, y: real, r: real)
    requires r > 0.0
    ensures x / r + y / r == (x + y) / r
  {
  }

  /**
   Reaching a target by way of another temperature never shortens the programme,
   and costs nothing when that temperature lies on the way.
   */
  lemma DetourNeverShortens(before: seq<Segment>, segment: Segment, after: seq<Segment>, mid: real, ambient: real)
    requires segment.target.Some?
    ensures var direct, detour := before + [segment] + after, before + Via(segment, mid) + after;
      && Length(detour, ambient) >= Length(direct, ambient)
      && EndTemperature(detour, ambient) == EndTemperature(direct, ambient)
      && (var from, to := EndTemperature(before, ambient), segment.target.value;
          from <= mid <= to || to <= mid <= from ==>
            Length(detour, ambient) == Length(direct, ambient))
  {
    hide RampMinutes;
    var from, via := EndTemperature(before, ambient), Via(segment, mid);
    LengthConcatenation(before + [segment], after, ambient);
    LengthConcatenation(before, [segment], ambient);
    LengthConcatenation(before + via, after, ambient);
    LengthConcatenation(before, via, ambient);
    RampBounds(segment.rate, from, mid, segment.target.value);
    assert via[1..] == [segment] && [segment][1..] == [];
    assert Length([segment], from) == Duration(segment, from) + Length([], segment.target.value);
    assert Length([segment], mid) == Duration(segment, mid) + Length([], segment.target.value);
    assert Length(via, from) == Duration(via[0], from) + Length([segment], mid);
    assert EndTemperature(via, from) == EndTemperature([segment], mid) == segment.target.value;
    assert EndTemperature([segment], from) == segment.target.value;
  }

  // ------------------------------------------------------------ editing one segment

  /** Where the programme stands after the edited segment and the next one. */
  function AfterNext(before: seq<Segment>, edited: Segment, next: Segment, ambient: real): real {
    EndOf(next, EndOf(edited, EndTemperature(before, ambient)))
  }

  /** The rows of the segments from `k` on, and the length of what runs before them. */
  lemma RowsAfter(before: seq<Segment>, edited: Segment, next: Segment, after: seq<Segment>, ambient: real)
    ensures var a := before + [edited, next];
      var rows := RowsFrom(a + after, ambient, 0.0);
      && rows[..|before|] == RowsFrom(before, ambient, 0.0)
      && rows[|before| + 2..] == RowsFrom(after, AfterNext(before, edited, next, ambient), Length(a, ambient))
  {
    hide RampMinutes, Duration, EndOf, RowOf;
    var a, from := before + [edited, next], EndTemperature(before, ambient);
    WalkConcatenation(a, after, ambient, 0.0);
    WalkConcatenation(before, [edited, next], ambient, 0.0);
    LengthConcatenation(before, [edited, next], ambient);
    TwoSegmentsEnd(edited, next, from);
  }

  /**
   Editing one segment leaves the earlier rows alone, and shifts the rows after
   the next one by one constant exactly when there are none, the next segment
   has a target of its own, or the edit ends where the old segment did.
   */
  lemma EditShiftsLaterRowsExactly(before: seq<Segment>, previous: Segment, edited: Segment, next: Segment,
                                   after: seq<Segment>, ambient: real)
    ensures var was := RowsFrom(before + [previous, next] + after, ambient, 0.0);
      var now := RowsFrom(before + [edited, next] + after, ambient, 0.0);
      var delta := Length(before + [edited, next], ambient) - Length(before + [previous, next], ambient);
      var from := EndTemperature(before, ambient);
      && now[..|before|] == was[..|before|]
      && (now[|before| + 2..] == Shifted(was[|before| + 2..], delta)
          <==> after == [] || next.target.Some? || EndOf(edited, from) == EndOf(previous, from))
  {
    hide RampMinutes, Duration, RowOf, Length, EndTemperature, RowsFrom;
    var a, b := before + [previous, next], before + [edited, next];
    var was, now := AfterNext(before, previous, next, ambient), AfterNext(before, edited, next, ambient);
    RowsAfter(before, previous, next, after, ambient);
    RowsAfter(before, edited, next, after, ambient);
    RowsShift(after, was, Length(a, ambient), Length(b, ambient) - Length(a, ambient));
    FirstRowStarts(after, was, Length(b, ambient));
    FirstRowStarts(after, now, Length(b, ambient));
    if after == [] {
      NoRows(was, Length(b, ambient));
      NoRows(now, Length(b, ambient));
    }
  }

  lemma FirstRowStarts(segments: seq<Segment>, from: real, elapsed: real)
    ensures segments != [] ==> RowsFrom(segments, from, elapsed)[0].startTemperature == from
  {
  }

  lemma NoRows(from: real, elapsed: real)
    ensures RowsFrom([], from, elapsed) == []
  {
  }

  /** How much later the edit makes the segment after the next one start. */
  function Delay(segments: seq<Segment>, k: nat, edited: Segment, ambient: real): real
    requires k + 1 < |segments|
  {
    Length(segments[k := edited][..k + 2], ambient) - Length(segments[..k + 2], ambient)
  }

  /** Stored segments always have a target, a plain number, so for them every edit shifts the later rows. */
  lemma StoredEditShiftsLaterRows(segments: seq<Segment>, k: nat, edited: Segment, ambient: real)
    requires k < |segments| && forall s | s in segments :: s.target.Some?
    ensures var was, now := RowsFrom(segments, ambient, 0.0), RowsFrom(segments[k := edited], ambient, 0.0);
      && now[..k] == was[..k]
      && (k + 1 < |segments| ==> now[k + 2..] == Shifted(was[k + 2..], Delay(segments, k, edited, ambient)))
  {
    hide RowsFrom, Length, EndTemperature, EndOf;
    var before := segments[..k];
    if k + 1 < |segments| {
      var next, after := segments[k + 1], segments[k + 2..];
      assert next in segments;
      assert segments == before + [segments[k], next] + after;
      assert segments[k := edited] == before + [edited, next] + after;
      assert segments[..k + 2] == before + [segments[k], next]
          && segments[k := edited][..k + 2] == before + [edited, next];
      EditShiftsLaterRowsExactly(before, segments[k], edited, next, after, ambient);
    } else {
      assert segments == before + [segments[k]] && segments[k := edited] == before + [edited];
      WalkConcatenation(before, [segments[k]], ambient, 0.0);
      WalkConcatenation(before, [edited], ambient, 0.0);
    }
  }

  /**
   Segments given without a target, as the schedule also accepts, may carry an edit on:
   here a later ramp itself changes.
   */
  lemma MissingTargetCarriesEditOn()
    ensures var hot, hotter, plain, climb := Segment(1, 1, None, Some(100.0), None),
      Segment(1, 1, None, Some(200.0), None),
                                             Segment(2, 2, None, None, None),
                                                 Segment(3, 3, Some(60.0), Some(300.0), None);
      RowsFrom([hot, plain, climb], AMBIENT, 0.0)[2].ramp == 200.0
      && RowsFrom([hotter, plain, climb], AMBIENT, 0.0)[2].ramp == 100.0
  {
    var hot, hotter, plain, climb := Segment(1, 1, None, Some(100.0), None), Segment(1, 1, None, Some(200.0), None),
                                     Segment(2, 2, None, None, None), Segment(3, 3, Some(60.0), Some(300.0), None);
    hide *;
    ThirdRamp(hot, plain, climb, 100.0);
    ThirdRamp(hotter, plain, climb, 200.0);
  }

  lemma ThirdRamp(a: Segment, b: Segment, c: Segment, from: real)
    requires a.target == Some(from) && b.target == None && c.rate == Some(60.0) && c.target == Some(300.0)
      && from <= 300.0
    ensures RowsFrom([a, b, c], AMBIENT, 0.0)[2].ramp == 300.0 - from
  {
    hide Duration;
    assert [a, b, c] == [a, b] + [c] && [a, b][1..] == [b] && [b][1..] == [];
    WalkConcatenation([a, b], [c], AMBIENT, 0.0);
    assert EndTemperature([a, b], AMBIENT) == EndTemperature([b], from) == EndTemperature([], from) == from;
    assert RampMinutes(c.rate, from, 300.0) == 60.0 * (300.0 - from) / 60.0;
  }

  lemma TwoSegmentsEnd(a: Segment, b: Segment, from: real)
    ensures EndTemperature([a, b], from) == EndOf(b, EndOf(a, from))
  {
    assert [a, b][1..] == [b] && [b][1..] == [];
    assert EndTemperature([a, b], from) == EndTemperature([b], EndOf(a, from))
        == EndTemperature([], EndOf(b, EndOf(a, from)));
  }

  // ------------------------------------------------------------ the rows of stored segments

  function SegmentKey(s: Segment): Key {
    (s.number, s.id, 0)
  }

  /** The rows a programme shows: siblings walked in number order. */
  function StoredRows(segments: seq<Segment>): seq<Row> {
    RowsFrom(SortBy(segments, SegmentKey), AMBIENT, 0.0)
  }

  /** Segments of one programme are numbered once, so the order in which they are stored does not matter. */
  lemma StorageOrderDoesNotMatter(a: seq<Segment>, b: seq<Segment>)
    requires multiset(a) == multiset(b) && DistinctKeys(SortBy(a, SegmentKey), SegmentKey)
    ensures StoredRows(a) == StoredRows(b)
  {
    SortBySorted(a, SegmentKey);
    SortBySorted(b, SegmentKey);
    SortedUnique(SortBy(a, SegmentKey), SortBy(b, SegmentKey), SegmentKey);
  }

  /** The rows of the segments in the given order, from a kiln at 20 degrees. */
  ghost predicate RowsOf(rows: seq<Row>, inOrder: seq<Segment>) {
    |rows| == |inOrder| && forall i | 0 <= i < |rows| :: RowFollows(rows, inOrder, i, 20.0, 0.0)
  }

  /** Stored segments run in the order of their numbers, and of their ids where numbers repeat. */
  lemma StoredRowsFollowNumbers(segments: seq<Segment>)
    ensures exists inOrder: seq<Segment> ::
      && multiset(inOrder) == multiset(segments)
      && (forall i, j | 0 <= i < j < |inOrder| :: inOrder[i].number < inOrder[j].number
            || (inOrder[i].number == inOrder[j].number && inOrder[i].id <= inOrder[j].id))
      && RowsOf(StoredRows(segments), inOrder)
  {
    hide RowFollows;
    var inOrder := SortBy(segments, SegmentKey);
    SortBySorted(segments, SegmentKey);
    forall i | 0 <= i < |inOrder| ensures RowFollows(StoredRows(segments), inOrder, i, 20.0, 0.0) {
      RowsFollowController(inOrder, AMBIENT, 0.0, i);
    }
    assert RowsOf(StoredRows(segments), inOrder);
  }
}
