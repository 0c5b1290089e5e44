/**
 The work orders of shared kiln loads: one of them carries the whole occupation
 of the kiln, the others ride along, and loading sorts planned orders into
 loaded and missed ones. Durations are minutes.
 */
module KilnLoads {
  import opened Common
  import opened Sorting
  import Slots = KilnSlots

  datatype OrderState = Blocked | Ready | InProgress | Finished | Dropped

  /** A calendar reservation. */
  datatype Leave = Leave(from: int, to: int)

  /** `own` is the duration Odoo derives from the operation. */
  datatype WorkOrder = WorkOrder(
    id: int, state: OrderState, planned: Option<int>, loaded: Option<int>, missed: bool,
    duration: int, own: int, leave: Option<Leave>, dateStart: Option<int>, occupiesCooling: bool)

  /** Declared minutes of a firing's programme. */
  datatype Declared = Declared(firing: int, cooling: int)

  type Programs = map<int, Declared>

  /** Zero when the programme declares no duration. */
  function OccupiedMinutes(programs: Programs, f: int, includeCooling: bool): int {
    if f !in programs || programs[f].firing == 0 then 0
    else programs[f].firing + if includeCooling then programs[f].cooling else 0
  }

  predicate InLoad(o: WorkOrder, f: int) {
    o.loaded == Some(f)
  }

  /** Reserved orders first, then by start (now when unset), then by id. */
  function LeadKey(now: int): WorkOrder -> Key {
    (o: WorkOrder) => (if o.leave.Some? then 0 else 1, if o.dateStart.Some? then o.dateStart.value else now, o.id)
  }

  predicate NoneBefore(orders: seq<WorkOrder>, f: int, now: int, lead: WorkOrder) {
    forall i | 0 <= i < |orders| && InLoad(orders[i], f) :: !KeyLess(LeadKey(now)(orders[i]), LeadKey(now)(lead))
  }

  /** The order of the load that carries the occupation; |orders| when the load is empty. */
  function Lead(orders: seq<WorkOrder>, f: int, now: int): (k: nat)
    ensures k <= |orders|
    ensures k < |orders| ==> InLoad(orders[k], f)
    ensures k == |orders| ==> (forall o | o in orders :: !InLoad(o, f))
    ensures k < |orders| ==> NoneBefore(orders, f, now, orders[k])
  {
    if orders == [] then 0
    else
      var rest := 1 + Lead(orders[1..], f, now);
      if InLoad(orders[0], f) && (rest == |orders| || !KeyLess(LeadKey(now)(orders[rest]), LeadKey(now)(orders[0])))
          then 0
      else rest
  }

  /** An order after its load was charged. */
  function Charge(o: WorkOrder, isLead: bool, leadReserved: bool, minutes: int): WorkOrder {
    o.(duration := if isLead then minutes else 0,
       leave := if !leadReserved then o.leave
                else if isLead then Some(Leave(o.leave.GetOr(Leave(0, 0)).from, o.leave.GetOr(Leave(0, 0)).from
                    + minutes))
                else None)
  }

  function ChargedAt(orders: seq<WorkOrder>, i: nat, f: int, programs: Programs, now: int): WorkOrder
    requires i < |orders| && InLoad(orders[i], f)
  {
    var k := Lead(orders, f, now);
    Charge(orders[i], i == k, orders[k].leave.Some?, OccupiedMinutes(programs, f, orders[k].occupiesCooling))
  }

  function ResyncedAt(orders: seq<WorkOrder>, i: nat, fs: set<int>, programs: Programs, now: int): WorkOrder
    requires i < |orders|
  {
    if orders[i].loaded.Some? && orders[i].loaded.value in fs
        then ChargedAt(orders, i, orders[i].loaded.value, programs, now)
    else orders[i]
  }

  /** The orders after the loads in `fs` were charged. */
  function Resync(orders: seq<WorkOrder>, fs: set<int>, programs: Programs, now: int): (r: seq<WorkOrder>)
    ensures |r| == |orders|
    ensures forall i | 0 <= i < |r| :: r[i] == ResyncedAt(orders, i, fs, programs, now)
  {
    seq(|orders|, i requires 0 <= i < |orders| => ResyncedAt(orders, i, fs, programs, now))
  }

  function Moved(orders: seq<WorkOrder>, ids: set<int>, target: Option<int>): (r: seq<WorkOrder>)
    ensures |r| == |orders|
    ensures forall i | 0 <= i < |r| :: r[i] == if orders[i].id in ids then orders[i].(loaded := target) else orders[i]
  {
    seq(|orders|, i requires 0 <= i < |orders| => if orders[i].id in ids then orders[i].(loaded := target)
        else orders[i])
  }

  function RestoredAt(o: WorkOrder, ids: set<int>): WorkOrder {
    if o.id in ids && o.loaded.None? then o.(duration := o.own) else o
  }

  /** Orders taken out of every load go back to their own duration. */
  function Restored(orders: seq<WorkOrder>, ids: set<int>): (r: seq<WorkOrder>)
    ensures |r| == |orders|
    ensures forall i | 0 <= i < |r| :: r[i] == RestoredAt(orders[i], ids)
  {
    seq(|orders|, i requires 0 <= i < |orders| => RestoredAt(orders[i], ids))
  }

  /** Loads a write of the load link touches: the ones left and the one entered. */
  function Touched(orders: seq<WorkOrder>, ids: set<int>, target: Option<int>): set<int> {
    (set o | o in orders && o.id in ids && o.loaded.Some? :: o.loaded.value)
    + if target.Some? && exists o | o in orders :: o.id in ids then {target.value} else {}
  }

  /** Writing the load link of some orders. */
  function AfterWrite(orders: seq<WorkOrder>, ids: set<int>, target: Option<int>, programs: Programs,
                      now: int): seq<WorkOrder> {
    Restored(Resync(Moved(orders, ids, target), Touched(orders, ids, target), programs, now), ids)
  }

  function Timed(o: WorkOrder, f: int, isLead: bool, minutes: int): WorkOrder {
    if InLoad(o, f) then o.(duration := if isLead then minutes else 0) else o
  }

  function LeaveKept(o: WorkOrder, f: int, isLead: bool, minutes: int): WorkOrder {
    if !InLoad(o, f) then o
    else if isLead then o.(leave := Some(Leave(o.leave.GetOr(Leave(0, 0)).from, o.leave.GetOr(Leave(0, 0)).from
        + minutes)))
    else o.(leave := None)
  }

  lemma NobodyToCharge(orders: seq<WorkOrder>, f: int, programs: Programs, now: int)
    requires Lead(orders, f, now) == |orders|
    ensures Resync(orders, {f}, programs, now) == orders
  {
    forall i | 0 <= i < |orders| ensures !InLoad(orders[i], f) {
      assert orders[i] in orders;
    }
  }

  method Pick<T>(s: set<T>) returns (x: T)
    requires s != {}
    ensures x in s
  {
    x :| x in s;
  }

  // ------------------------------------------------------------ the loops

  class LoadBook {
    var orders: seq<WorkOrder>
    var programs: Programs

    /** Charges one physical kiln occupation across the load. */
    method SyncGroupDuration(f: int, now: int)
      modifies this`orders
      ensures orders == Resync(old(orders), {f}, programs, now)
    {
      hide Lead, OccupiedMinutes;
      ghost var before := orders;
      var k := Lead(orders, f, now);
      if k == |orders| {
        NobodyToCharge(orders, f, programs, now);
        return;
      }
      var minutes := OccupiedMinutes(programs, f, orders[k].occupiesCooling);
      for i := 0 to |orders|
        invariant |orders| == |before|
        invariant forall j | 0 <= j < i :: orders[j] == Timed(before[j], f, j == k, minutes)
        invariant forall j | i <= j < |before| :: orders[j] == before[j]
      {
        if InLoad(orders[i], f) {
          var expected := if i == k then minutes else 0;
          if orders[i].duration != expected {
            orders := orders[i := orders[i].(duration := expected)];
          }
        }
      }
      if orders[k].leave.Some? {
        KeepLeadLeave(f, k, minutes);
      }
      forall i | 0 <= i < |before| ensures orders[i] == ResyncedAt(before, i, {f}, programs, now) {}
    }

    /** The lead's reservation covers the occupation, the others' are dropped. */
    method KeepLeadLeave(f: int, k: nat, minutes: int)
      requires k < |orders| && InLoad(orders[k], f) && orders[k].leave.Some?
      modifies this`orders
      ensures |orders| == |old(orders)|
      ensures forall i | 0 <= i < |orders| :: orders[i] == LeaveKept(old(orders)[i], f, i == k, minutes)
    {
      ghost var before := orders;
      var from := orders[k].leave.value.from;
      orders := orders[k := orders[k].(leave := Some(Leave(from, from + minutes)))];
      for i := 0 to |orders|
        invariant |orders| == |before|
        invariant orders[k] == LeaveKept(before[k], f, true, minutes)
        invariant forall j | 0 <= j < i :: orders[j] == LeaveKept(before[j], f, j == k, minutes)
        invariant forall j | i <= j < |before| && j != k :: orders[j] == before[j]
      {
        if InLoad(orders[i], f) && i != k {
          orders := orders[i := orders[i].(leave := None)];
        }
      }
    }

    method SyncAll(fs: set<int>, now: int)
      modifies this`orders
      ensures orders == Resync(old(orders), fs, programs, now)
    {
      ghost var before := orders;
      var left := fs;
      assert fs - left == {} && Resync(before, {}, programs, now) == before;
      while left != {}
        invariant left <= fs && orders == Resync(before, fs - left, programs, now)
        decreases |left|
      {
        var f := Pick(left);
        ghost var done := fs - left;
        ResyncOneMore(before, done, f, programs, now);
        SyncGroupDuration(f, now);
        left := left - {f};
        assert fs - left == done + {f};
      }
      assert fs - left == fs;
    }

    /** Writing the load link: both the loads left and the load entered are charged again. */
    method WriteLoad(ids: set<int>, target: Option<int>, now: int)
      modifies this`orders
      ensures orders == AfterWrite(old(orders), ids, target, programs, now)
    {
      var touched := Touched(orders, ids, target);
      orders := Moved(orders, ids, target);
      SyncAll(touched, now);
      orders := Restored(orders, ids);
    }

    /** Ready earmarks become physical contents, the others are recorded as missed. */
    method ActionLoad(f: int, now: int)
      modifies this`orders
      ensures orders == Loaded(old(orders), f, programs, now)
    {
      var ready := ReadyFor(orders, f);
      var missed := PlannedFor(orders, f) - ready;
      orders := Unplanned(orders, ready, false);
      WriteLoad(ready, Some(f), now);
      orders := Unplanned(orders, missed, true);
      SyncGroupDuration(f, now);
    }
  }

  function PlannedFor(orders: seq<WorkOrder>, f: int): set<int> {
    set o | o in orders && o.planned == Some(f) :: o.id
  }

  function ReadyFor(orders: seq<WorkOrder>, f: int): set<int> {
    set o | o in orders && o.planned == Some(f) && o.state == Ready :: o.id
  }

  function UnplannedAt(o: WorkOrder, ids: set<int>, missed: bool): WorkOrder {
    if o.id in ids then o.(planned := None, missed := missed || o.missed) else o
  }

  function Unplanned(orders: seq<WorkOrder>, ids: set<int>, missed: bool): (r: seq<WorkOrder>)
    ensures |r| == |orders|
    ensures forall i | 0 <= i < |r| :: r[i] == UnplannedAt(orders[i], ids, missed)
  {
    seq(|orders|, i requires 0 <= i < |orders| => UnplannedAt(orders[i], ids, missed))
  }

  function Loaded(orders: seq<WorkOrder>, f: int, programs: Programs, now: int): seq<WorkOrder> {
    var ready := ReadyFor(orders, f);
    var loaded := AfterWrite(Unplanned(orders, ready, false), ready, Some(f), programs, now);
    Resync(Unplanned(loaded, PlannedFor(orders, f) - ready, true), {f}, programs, now)
  }

  // ------------------------------------------------------------ loads do not disturb each other

  lemma {:induction false} LeadDependsOnLoad(a: seq<WorkOrder>, b: seq<WorkOrder>, f: int, now: int)
    requires |a| == |b|
    requires forall i | 0 <= i < |a| :: InLoad(a[i], f) <==> InLoad(b[i], f)
    requires forall i | 0 <= i < |a| && InLoad(a[i], f) :: LeadKey(now)(a[i]) == LeadKey(now)(b[i])
    ensures Lead(a, f, now) == Lead(b, f, now)
    decreases |a|
  {
    if a != [] {
      LeadDependsOnLoad(a[1..], b[1..], f, now);
    }
  }

  lemma ResyncOneMore(orders: seq<WorkOrder>, fs: set<int>, f: int, programs: Programs, now: int)
    requires f !in fs
    ensures Resync(Resync(orders, fs, programs, now), {f}, programs, now) == Resync(orders, fs + {f}, programs, now)
  {
    hide Lead;
    var once := Resync(orders, fs, programs, now);
    LeadDependsOnLoad(orders, once, f, now);
    forall i | 0 <= i < |orders| ensures Resync(once, {f}, programs, now)[i]
        == Resync(orders, fs + {f}, programs, now)[i] {
      if InLoad(orders[i], f) {
        var k := Lead(orders, f, now);
        assert once[i] == orders[i] && once[k] == orders[k];
      }
    }
  }

  // ------------------------------------------------------------ one charge per load

  ghost predicate DistinctIds(orders: seq<WorkOrder>) {
    forall i, j | 0 <= i < j < |orders| :: orders[i].id != orders[j].id
  }

  /** One order carries the occupation, the others nothing, and at most one reservation remains. */
  ghost predicate ChargedOnce(orders: seq<WorkOrder>, f: int, programs: Programs) {
    (exists i :: 0 <= i < |orders| && InLoad(orders[i], f)) ==>
        (exists k: nat :: k < |orders| && Carries(orders, f, k, programs))
  }

  ghost predicate Carries(orders: seq<WorkOrder>, f: int, k: nat, programs: Programs)
    requires k < |orders|
  {
    && InLoad(orders[k], f)
    && orders[k].duration == OccupiedMinutes(programs, f, orders[k].occupiesCooling)
    && (orders[k].leave.Some? ==> orders[k].leave.value.to == orders[k].leave.value.from + orders[k].duration)
    && (forall i | 0 <= i < |orders| && i != k && InLoad(orders[i], f) ::
       orders[i].duration == 0 && orders[i].leave.None?)
  }

  function LoadDuration(orders: seq<WorkOrder>, f: int): int {
    if orders == [] then 0
    else (if InLoad(orders[0], f) then orders[0].duration else 0) + LoadDuration(orders[1..], f)
  }

  lemma {:induction false} DurationOfOne(orders: seq<WorkOrder>, f: int, k: nat)
    requires k < |orders| && InLoad(orders[k], f)
    requires forall i | 0 <= i < |orders| && i != k && InLoad(orders[i], f) :: orders[i].duration == 0
    ensures LoadDuration(orders, f) == orders[k].duration
    decreases k
  {
    if k > 0 {
      DurationOfOne(orders[1..], f, k - 1);
    } else {
      NoDuration(orders[1..], f);
    }
  }

  lemma {:induction false} NoDuration(orders: seq<WorkOrder>, f: int)
    requires forall i | 0 <= i < |orders| && InLoad(orders[i], f) :: orders[i].duration == 0
    ensures LoadDuration(orders, f) == 0
  {
    if orders != [] {
      NoDuration(orders[1..], f);
    }
  }

  /** A load charged once lasts one programme occupation in total: nothing without declared firing minutes. */
  lemma ChargedOnceSumsToOccupation(orders: seq<WorkOrder>, f: int, programs: Programs)
    requires ChargedOnce(orders, f, programs) && exists i :: 0 <= i < |orders| && InLoad(orders[i], f)
    ensures f !in programs || programs[f].firing == 0 ==> LoadDuration(orders, f) == 0
    ensures f in programs && programs[f].firing != 0 ==> (exists k ::
      0 <= k < |orders| && InLoad(orders[k], f)
          && LoadDuration(orders, f) - programs[f].firing == if orders[k].occupiesCooling then programs[f].cooling
          else 0)
  {
    var k: nat :| k < |orders| && Carries(orders, f, k, programs);
    DurationOfOne(orders, f, k);
  }

  /**
   What charging a load costs in all: its programme's firing minutes, the cooling as well when the
   lead occupies it, and nothing when no firing minutes are declared. A reserved lead is booked that long.
   */
  lemma ChargedLoadLasts(orders: seq<WorkOrder>, f: int, programs: Programs, now: int)
    requires Lead(orders, f, now) < |orders|
    ensures var r, lead := Resync(orders, {f}, programs, now), orders[Lead(orders, f, now)];
      && (f !in programs || programs[f].firing == 0 ==> LoadDuration(r, f) == 0)
      && (f in programs && programs[f].firing != 0 && !lead.occupiesCooling ==>
            LoadDuration(r, f) == programs[f].firing)
      && (f in programs && programs[f].firing != 0 && lead.occupiesCooling ==>
            LoadDuration(r, f) - programs[f].firing == programs[f].cooling)
    ensures var r, k := Resync(orders, {f}, programs, now), Lead(orders, f, now);
      orders[k].leave.Some? ==>
          r[k].leave == Some(Leave(orders[k].leave.value.from, orders[k].leave.value.from + LoadDuration(r, f)))
  {
    hide Lead;
    var r, k := Resync(orders, {f}, programs, now), Lead(orders, f, now);
    assert r[k] == ChargedAt(orders, k, f, programs, now);
    DurationOfOne(r, f, k);
  }

  /** A firing of `KilnSlots` on the same declared minutes. */
  ghost predicate SameHours(firing: Slots.Firing, planned: map<int, Slots.PlannedProgram>, programs: Programs) {
    && Slots.HasWindow(firing, planned) && firing.id in programs
    && programs[firing.id] == Declared(planned[firing.program.value].firing, planned[firing.program.value].cooling)
  }

  /**
   The charge of a load is as long as the kiln window of its firing exactly when the lead
   occupies the cooling, up to hours that are not declared; a lead reserved from the planned
   start is then booked until the kiln is free.
   */
  lemma ChargeFillsWindowExactly(orders: seq<WorkOrder>, firing: Slots.Firing,
                                 planned: map<int, Slots.PlannedProgram>, programs: Programs, now: int)
    requires SameHours(firing, planned, programs) && Lead(orders, firing.id, now) < |orders|
    ensures var r, k := Resync(orders, {firing.id}, programs, now), Lead(orders, firing.id, now);
      var window := Slots.WindowEnd(firing, planned) - firing.plannedStart.value;
      var program := planned[firing.program.value];
      && (LoadDuration(r, firing.id) == window <==>
            program.cooling == 0 || (program.firing != 0 && orders[k].occupiesCooling))
      && (LoadDuration(r, firing.id) == window && orders[k].leave.Some?
          && orders[k].leave.value.from == firing.plannedStart.value ==>
            r[k].leave.Some? && r[k].leave.value.to == Slots.WindowEnd(firing, planned))
  {
    ChargedLoadLasts(orders, firing.id, programs, now);
  }

  /** The lead of a load: reserved orders before others, then the earlier start, then the smaller id. */
  lemma LeadComesFirst(orders: seq<WorkOrder>, f: int, now: int, i: nat)
    requires i < |orders| && InLoad(orders[i], f)
    ensures Lead(orders, f, now) < |orders|
    ensures var lead, o := orders[Lead(orders, f, now)], orders[i];
      && (o.leave.Some? ==> lead.leave.Some?)
      && (o.leave.Some? == lead.leave.Some? ==>
            lead.dateStart.GetOr(now) <= o.dateStart.GetOr(now)
            && (lead.dateStart.GetOr(now) == o.dateStart.GetOr(now) ==> lead.id <= o.id))
  {
    hide Lead;
    assert orders[i] in orders;
    assert NoneBefore(orders, f, now, orders[Lead(orders, f, now)]);
  }

  lemma ResyncChargesOnce(orders: seq<WorkOrder>, fs: set<int>, f: int, programs: Programs, now: int)
    requires f in fs
    ensures ChargedOnce(Resync(orders, fs, programs, now), f, programs)
  {
    var r := Resync(orders, fs, programs, now);
    var k := Lead(orders, f, now);
    forall i | 0 <= i < |r| && InLoad(r[i], f) ensures InLoad(orders[i], f) && k < |orders| {
      assert orders[i] in orders;
    }
    forall i | 0 <= i < |r| && i != k && InLoad(r[i], f) ensures r[i].duration == 0 && r[i].leave.None? {
      assert InLoad(orders[i], f);
      assert NoneBefore(orders, f, now, orders[k]);
    }
    if i :| 0 <= i < |r| && InLoad(r[i], f) {
      assert Carries(r, f, k, programs);
    }
  }

  ghost predicate AllChargedOnce(orders: seq<WorkOrder>, programs: Programs) {
    forall f :: ChargedOnce(orders, f, programs)
  }

  /** A load whose orders were not touched stays charged as it was. */
  lemma SameLoadSameCharge(a: seq<WorkOrder>, b: seq<WorkOrder>, f: int, programs: Programs)
    requires ChargedOnce(a, f, programs) && |a| == |b|
    requires forall i | 0 <= i < |a| :: InLoad(a[i], f) || InLoad(b[i], f) ==> a[i] == b[i]
    ensures ChargedOnce(b, f, programs)
  {
    if i :| 0 <= i < |b| && InLoad(b[i], f) {
      assert InLoad(a[i], f);
      var k: nat :| k < |a| && Carries(a, f, k, programs);
      assert Carries(b, f, k, programs);
    }
  }

  lemma WriteKeepsCharges(orders: seq<WorkOrder>, ids: set<int>, target: Option<int>, programs: Programs, now: int)
    requires AllChargedOnce(orders, programs)
    ensures AllChargedOnce(AfterWrite(orders, ids, target, programs, now), programs)
  {
    hide ChargedOnce, Lead;
    var moved, touched := Moved(orders, ids, target), Touched(orders, ids, target);
    var synced := Resync(moved, touched, programs, now);
    var r := Restored(synced, ids);
    forall f ensures ChargedOnce(r, f, programs) {
      if f in touched {
        ResyncChargesOnce(moved, touched, f, programs, now);
        SameLoadSameCharge(synced, r, f, programs);
      } else {
        forall i | 0 <= i < |orders| && (InLoad(orders[i], f) || InLoad(r[i], f)) ensures orders[i] == r[i] {
          assert orders[i] in orders;
        }
        SameLoadSameCharge(orders, r, f, programs);
      }
    }
  }

  /**
   What a link write does to an order: a named one gets the link, and its own duration back when
   that is none; any other keeps its link, and all else unless its load is left or entered.
   */
  lemma WriteMovesOrders(orders: seq<WorkOrder>, ids: set<int>, target: Option<int>, programs: Programs, now: int,
                         i: nat)
    requires i < |orders|
    ensures |AfterWrite(orders, ids, target, programs, now)| == |orders|
    ensures var o, r := orders[i], AfterWrite(orders, ids, target, programs, now)[i];
      && r.loaded == (if o.id in ids then target else o.loaded)
      && (o.id in ids && target.None? ==> r == o.(loaded := None, duration := o.own))
      && (o.id !in ids && o.loaded.None? ==> r == o)
      && (o.id !in ids && o.loaded != target && (forall p | p in orders && p.id in ids :: p.loaded != o.loaded) ==>
            r == o)
  {
    hide Lead, OccupiedMinutes;
  }

  // ------------------------------------------------------------ any sequence of assignments, removals and corrections

  datatype Command =
    | WriteLink(ids: set<int>, target: Option<int>, now: int)
    | CorrectHours(f: int, declared: Declared, at: int)
    | Load(f: int, now: int)

  datatype Book = Book(orders: seq<WorkOrder>, programs: Programs)

  function Step(b: Book, c: Command): Book {
    match c
    case WriteLink(ids, target, now) => b.(orders := AfterWrite(b.orders, ids, target, b.programs, now))
    case CorrectHours(f, declared, at) =>
      var programs := b.programs[f := declared];
      Book(Resync(b.orders, {f}, programs, at), programs)
    case Load(f, now) => b.(orders := Loaded(b.orders, f, b.programs, now))
  }

  function Run(b: Book, cs: seq<Command>): Book
    decreases |cs|
  {
    if cs == [] then b else Run(Step(b, cs[0]), cs[1..])
  }

  lemma CorrectionKeepsCharges(b: Book, f: int, declared: Declared, at: int)
    requires AllChargedOnce(b.orders, b.programs)
    ensures AllChargedOnce(Step(b, CorrectHours(f, declared, at)).orders,
      Step(b, CorrectHours(f, declared, at)).programs)
  {
    hide ChargedOnce, Lead;
    var programs := b.programs[f := declared];
    var r := Resync(b.orders, {f}, programs, at);
    forall g ensures ChargedOnce(r, g, programs) {
      if g == f {
        ResyncChargesOnce(b.orders, {f}, f, programs, at);
      } else {
        OtherProgramSameCharge(b.orders, g, b.programs, programs);
        SameLoadSameCharge(b.orders, r, g, programs);
      }
    }
  }

  lemma OtherProgramSameCharge(orders: seq<WorkOrder>, g: int, before: Programs, after: Programs)
    requires ChargedOnce(orders, g, before) && (g in before <==> g in after) && (g in before ==> before[g] == after[g])
    ensures ChargedOnce(orders, g, after)
  {
    assert forall cooling :: OccupiedMinutes(before, g, cooling) == OccupiedMinutes(after, g, cooling);
    if i :| 0 <= i < |orders| && InLoad(orders[i], g) {
      var k: nat :| k < |orders| && Carries(orders, g, k, before);
      assert Carries(orders, g, k, after);
    }
  }

  /** Planning marks are no matter of the charge. */
  lemma UnplanningKeepsCharge(orders: seq<WorkOrder>, ids: set<int>, missed: bool, f: int, programs: Programs)
    requires ChargedOnce(orders, f, programs)
    ensures ChargedOnce(Unplanned(orders, ids, missed), f, programs)
  {
    var r := Unplanned(orders, ids, missed);
    if i :| 0 <= i < |r| && InLoad(r[i], f) {
      assert InLoad(orders[i], f);
      var k: nat :| k < |orders| && Carries(orders, f, k, programs);
      assert Carries(r, f, k, programs);
    }
  }

  lemma UnplanningKeepsCharges(orders: seq<WorkOrder>, ids: set<int>, missed: bool, programs: Programs)
    requires AllChargedOnce(orders, programs)
    ensures AllChargedOnce(Unplanned(orders, ids, missed), programs)
  {
    forall f ensures ChargedOnce(Unplanned(orders, ids, missed), f, programs) {
      UnplanningKeepsCharge(orders, ids, missed, f, programs);
    }
  }

  /** Charging one load leaves every load charged once. */
  lemma ResyncKeepsCharges(orders: seq<WorkOrder>, f: int, programs: Programs, now: int)
    requires AllChargedOnce(orders, programs)
    ensures AllChargedOnce(Resync(orders, {f}, programs, now), programs)
  {
    hide ChargedOnce, Lead;
    forall g ensures ChargedOnce(Resync(orders, {f}, programs, now), g, programs) {
      if g == f {
        ResyncChargesOnce(orders, {f}, f, programs, now);
      } else {
        SameLoadSameCharge(orders, Resync(orders, {f}, programs, now), g, programs);
      }
    }
  }

  lemma LoadingKeepsCharges(orders: seq<WorkOrder>, f: int, programs: Programs, now: int)
    requires AllChargedOnce(orders, programs)
    ensures AllChargedOnce(Loaded(orders, f, programs, now), programs)
  {
    hide AllChargedOnce, AfterWrite, Resync, Unplanned;
    var ready := ReadyFor(orders, f);
    var u := Unplanned(orders, ready, false);
    UnplanningKeepsCharges(orders, ready, false, programs);
    WriteKeepsCharges(u, ready, Some(f), programs, now);
    var loaded := AfterWrite(u, ready, Some(f), programs, now);
    UnplanningKeepsCharges(loaded, PlannedFor(orders, f) - ready, true, programs);
    ResyncKeepsCharges(Unplanned(loaded, PlannedFor(orders, f) - ready, true), f, programs, now);
  }

  /** After any run every load is charged one occupation, by one order, with at most one reservation. */
  lemma {:induction false} RunKeepsCharges(b: Book, cs: seq<Command>)
    requires AllChargedOnce(b.orders, b.programs)
    ensures AllChargedOnce(Run(b, cs).orders, Run(b, cs).programs)
    decreases |cs|
  {
    hide AllChargedOnce;
    if cs != [] {
      match cs[0] {
        case WriteLink(ids, target, now) => WriteKeepsCharges(b.orders, ids, target, b.programs, now);
        case CorrectHours(f, declared, at) => CorrectionKeepsCharges(b, f, declared, at);
        case Load(f, now) => LoadingKeepsCharges(b.orders, f, b.programs, now);
      }
      RunKeepsCharges(Step(b, cs[0]), cs[1..]);
    }
  }

  // ------------------------------------------------------------ running it again

  lemma LeadIsLeast(orders: seq<WorkOrder>, f: int, now: int, k: nat)
    requires DistinctIds(orders) && k < |orders| && InLoad(orders[k], f) && NoneBefore(orders, f, now, orders[k])
    ensures Lead(orders, f, now) == k
  {
    hide Lead;
    var l := Lead(orders, f, now);
    assert orders[k] in orders;
    assert NoneBefore(orders, f, now, orders[l]);
    SameKeySameId(orders[k], orders[l], now);
  }

  lemma SameKeySameId(a: WorkOrder, b: WorkOrder, now: int)
    requires !KeyLess(LeadKey(now)(a), LeadKey(now)(b)) && !KeyLess(LeadKey(now)(b), LeadKey(now)(a))
    ensures a.id == b.id
  {
  }

  /** Charging never moves an order in front of the lead, whenever the lead is looked up. */
  lemma ChargeKeepsNoneBefore(orders: seq<WorkOrder>, f: int, programs: Programs, now: int, at: int)
    requires Lead(orders, f, now) < |orders| && NoneBefore(orders, f, at, orders[Lead(orders, f, now)])
    ensures var r := Resync(orders, {f}, programs, now); NoneBefore(r, f, at, r[Lead(orders, f, now)])
  {
    hide Lead, OccupiedMinutes;
    var r, k := Resync(orders, {f}, programs, now), Lead(orders, f, now);
    forall i | 0 <= i < |r| && InLoad(r[i], f) ensures !KeyLess(LeadKey(at)(r[i]), LeadKey(at)(r[k])) {
      assert r[i] == ChargedAt(orders, i, f, programs, now) && r[k] == ChargedAt(orders, k, f, programs, now);
      assert !KeyLess(LeadKey(at)(orders[i]), LeadKey(at)(orders[k]));
    }
  }

  lemma ResyncKeepsIds(orders: seq<WorkOrder>, f: int, programs: Programs, now: int)
    requires DistinctIds(orders)
    ensures DistinctIds(Resync(orders, {f}, programs, now))
  {
    hide Lead, OccupiedMinutes;
    var r := Resync(orders, {f}, programs, now);
    forall i | 0 <= i < |r| ensures r[i].id == orders[i].id {}
  }

  lemma LeadStays(orders: seq<WorkOrder>, f: int, programs: Programs, now: int)
    requires DistinctIds(orders) && Lead(orders, f, now) < |orders|
    ensures Lead(Resync(orders, {f}, programs, now), f, now) == Lead(orders, f, now)
  {
    hide Lead;
    ResyncKeepsIds(orders, f, programs, now);
    ChargeKeepsNoneBefore(orders, f, programs, now, now);
    LeadIsLeast(Resync(orders, {f}, programs, now), f, now, Lead(orders, f, now));
  }

  /** Charging a load twice at the same moment changes nothing the second time. */
  lemma ResyncIdempotent(orders: seq<WorkOrder>, f: int, programs: Programs, now: int)
    requires DistinctIds(orders)
    ensures var r := Resync(orders, {f}, programs, now); Resync(r, {f}, programs, now) == r
  {
    hide Lead, OccupiedMinutes;
    var r := Resync(orders, {f}, programs, now);
    var k := Lead(orders, f, now);
    if k == |orders| {
      NobodyToCharge(orders, f, programs, now);
    } else {
      LeadStays(orders, f, programs, now);
      forall i | 0 <= i < |r| ensures ResyncedAt(r, i, {f}, programs, now) == r[i] {
        ChargedTwice(orders, f, programs, now, i);
      }
    }
  }

  lemma ChargedTwice(orders: seq<WorkOrder>, f: int, programs: Programs, now: int, i: nat)
    requires i < |orders| && Lead(orders, f, now) < |orders|
    requires Lead(Resync(orders, {f}, programs, now), f, now) == Lead(orders, f, now)
    ensures var r := Resync(orders, {f}, programs, now); ResyncedAt(r, i, {f}, programs, now) == r[i]
  {
    hide Lead, OccupiedMinutes, Resync;
    var r, k := Resync(orders, {f}, programs, now), Lead(orders, f, now);
    assert r[k] == ResyncedAt(orders, k, {f}, programs, now) && r[i] == ResyncedAt(orders, i, {f}, programs, now);
  }

  /**
   The lead of a charged load depends on the clock only while it has neither a reservation
   nor a start and another order has one.
   */
  predicate Settled(orders: seq<WorkOrder>, f: int, k: nat)
    requires k < |orders|
  {
    orders[k].leave.Some? || orders[k].dateStart.Some? || forall o | o in orders && InLoad(o, f) :: o.dateStart.None?
  }

  /** Charging again later picks the same lead, whenever that is, exactly when the lead is settled. */
  lemma LeadStaysLaterExactly(orders: seq<WorkOrder>, f: int, now: int)
    requires DistinctIds(orders) && Lead(orders, f, now) < |orders|
    requires OneLeave(orders, f, Lead(orders, f, now))
    ensures var k := Lead(orders, f, now);
      Settled(orders, f, k) <==> (forall later | later >= now :: Lead(orders, f, later) == k)
  {
    hide Lead;
    var k := Lead(orders, f, now);
    if Settled(orders, f, k) {
      forall later | later >= now ensures Lead(orders, f, later) == k {
        SettledStays(orders, f, now, later, k);
        LeadIsLeast(orders, f, later, k);
      }
    } else {
      var o :| o in orders && InLoad(o, f) && o.dateStart.Some?;
      var later := Max(now, o.dateStart.value + 1);
      var i :| 0 <= i < |orders| && orders[i] == o;
      assert KeyLess(LeadKey(later)(orders[i]), LeadKey(later)(orders[k]));
      assert !NoneBefore(orders, f, later, orders[k]);
      assert Lead(orders, f, later) != k;
    }
  }

  /** Only the lead may hold a reservation, as charging leaves it. */
  ghost predicate OneLeave(orders: seq<WorkOrder>, f: int, k: nat) {
    forall i | 0 <= i < |orders| && i != k && InLoad(orders[i], f) :: orders[i].leave.None?
  }

  lemma SettledStays(orders: seq<WorkOrder>, f: int, now: int, later: int, k: nat)
    requires k < |orders| && InLoad(orders[k], f) && OneLeave(orders, f, k)
    requires later >= now && NoneBefore(orders, f, now, orders[k]) && Settled(orders, f, k)
    ensures NoneBefore(orders, f, later, orders[k])
  {
    forall i | 0 <= i < |orders| && InLoad(orders[i], f)
      ensures !KeyLess(LeadKey(later)(orders[i]), LeadKey(later)(orders[k]))
    {
      assert !KeyLess(LeadKey(now)(orders[i]), LeadKey(now)(orders[k])) && orders[i] in orders;
    }
  }

  // ------------------------------------------------------------ loading loses nobody

  /**
   Loading splits the planned orders into those now in the load, exactly the
   ready ones, and those recorded as missed; nobody stays planned on the firing
   and no other order's links change.
   */
  lemma LoadingPartitions(orders: seq<WorkOrder>, f: int, programs: Programs, now: int, i: nat)
    requires DistinctIds(orders) && i < |orders|
    ensures var r := Loaded(orders, f, programs, now);
      && |r| == |orders| && r[i].id == orders[i].id && r[i].state == orders[i].state
      && (orders[i].planned == Some(f) && orders[i].state == Ready ==>
            r[i].planned == None && r[i].loaded == Some(f) && r[i].missed == orders[i].missed)
      && (orders[i].planned == Some(f) && orders[i].state != Ready ==>
            r[i].planned == None && r[i].loaded == orders[i].loaded && r[i].missed)
      && (orders[i].planned != Some(f) ==>
            r[i].planned == orders[i].planned && r[i].loaded == orders[i].loaded && r[i].missed == orders[i].missed)
  {
    hide Resync, Touched, KeyLess;
    var ready, planned := ReadyFor(orders, f), PlannedFor(orders, f);
    assert orders[i] in orders;
    ByOwnId(orders, i);
    assert orders[i].id in ready <==> orders[i].planned == Some(f) && orders[i].state == Ready;
    assert orders[i].id in planned <==> orders[i].planned == Some(f);
    var u := Unplanned(orders, ready, false);
    var w := AfterWrite(u, ready, Some(f), programs, now);
    assert w[i].id == u[i].id && w[i].state == u[i].state && w[i].planned == u[i].planned && w[i].missed == u[i].missed;
    assert w[i].loaded == if u[i].id in ready then Some(f) else u[i].loaded;
  }

  lemma ByOwnId(orders: seq<WorkOrder>, i: nat)
    requires DistinctIds(orders) && i < |orders|
    ensures forall o | o in orders && o.id == orders[i].id :: o == orders[i]
  {
  }
}
