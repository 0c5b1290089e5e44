/**
 Kiln occupation: the life of a firing and the check that keeps planned firing
 and cooling windows of one kiln apart. Times are minutes.
 */
module KilnSlots {
  import opened Common

  datatype State = Planned | Loading | InFire | Cooling | Unloaded | Cancelled

  datatype FiringKind = Bisque | Glaze | OtherKind

  datatype PlannedProgram = PlannedProgram(kiln: int, kind: FiringKind, firing: int, cooling: int)

  datatype Firing = Firing(
    id: int, kiln: int, program: Option<int>, kind: FiringKind, state: State, plannedStart: Option<int>,
    started: Option<int>, ended: Option<int>, coolingEnd: Option<int>, interrupted: bool, hasReason: bool)

  datatype Floor = Floor(firings: seq<Firing>, programs: map<int, PlannedProgram>)

  predicate Terminal(f: Firing) {
    f.state == Unloaded || f.state == Cancelled
  }

  predicate Occupies(f: Firing) {
    !Terminal(f)
  }

  /** Planned start, and earliest unload: after firing and cooling. */
  predicate HasWindow(f: Firing, programs: map<int, PlannedProgram>) {
    f.plannedStart.Some? && f.program.Some? && f.program.value in programs
  }

  function WindowEnd(f: Firing, programs: map<int, PlannedProgram>): int
    requires HasWindow(f, programs)
  {
    f.plannedStart.value + programs[f.program.value].firing + programs[f.program.value].cooling
  }

  predicate Clash(a: Firing, b: Firing, programs: map<int, PlannedProgram>) {
    && a.kiln == b.kiln && HasWindow(a, programs) && HasWindow(b, programs)
    && a.plannedStart.value < WindowEnd(b, programs) && WindowEnd(a, programs) > b.plannedStart.value
  }

  predicate Compatible(f: Firing, programs: map<int, PlannedProgram>) {
    f.program.Some? ==>
      f.program.value in programs && programs[f.program.value].kiln == f.kiln
          && programs[f.program.value].kind == f.kind
  }

  /** No occupying firing of its kiln is in the way. */
  ghost predicate Fits(firings: seq<Firing>, f: Firing, programs: map<int, PlannedProgram>) {
    forall o | o in firings && o.id != f.id && Occupies(o) :: !Clash(f, o, programs)
  }

  /** What a planned firing must satisfy when it is written. */
  ghost predicate SlotFree(firings: seq<Firing>, f: Firing, programs: map<int, PlannedProgram>) {
    HasWindow(f, programs) && Fits(firings, f, programs)
  }

  datatype Command =
    | Create(entry: Firing)
    | Write(id: int, kiln: int, program: Option<int>, kind: FiringKind, plannedStart: Option<int>, state: State)
    | Load(id: int)
    | Start(id: int, now: int)
    | Finish(id: int, now: int)
    | Unload(id: int, now: int)
    | GiveReason(id: int)
    | ForceUnload(id: int)
    | Cancel(id: int)
    | Delete(id: int)
    | SetHours(programId: int, firingMinutes: int, coolingMinutes: int)

  function Find(fs: seq<Firing>, id: int): (k: nat)
    ensures k <= |fs| && (k < |fs| ==> fs[k].id == id) && forall i | 0 <= i < k :: fs[i].id != id
  {
    if fs == [] || fs[0].id == id then 0 else 1 + Find(fs[1..], id)
  }

  function Written(f: Firing, c: Command): Firing
    requires c.Write?
  {
    f.(kiln := c.kiln, program := c.program, kind := c.kind, plannedStart := c.plannedStart, state := c.state)
  }

  /** The cooling hold recorded when heating ends. */
  function CoolingEnd(f: Firing, now: int, programs: map<int, PlannedProgram>): Option<int> {
    if f.program.Some? && f.program.value in programs then Some(now + programs[f.program.value].cooling) else None
  }

  ghost predicate WriteAccepted(fs: seq<Firing>, f: Firing, programs: map<int, PlannedProgram>) {
    Compatible(f, programs) && (f.state == Planned ==> SlotFree(fs, f, programs))
  }

  predicate StillHot(f: Firing, now: int) {
    f.coolingEnd.Some? && f.coolingEnd.value > now
  }

  ghost function Step(s: Floor, c: Command): (r: (Floor, Outcome))
    ensures r.1 == Refused ==> r.0 == s
  {
    var fs := s.firings;
    if c.Create? then
      if Find(fs, c.entry.id) == |fs| && WriteAccepted(fs, c.entry, s.programs)
      then (s.(firings := fs + [c.entry]), Done) else (s, Refused)
    else if c.SetHours? then
      if c.programId in s.programs
      then (s.(programs := s.programs[c.programId :=
              s.programs[c.programId].(firing := c.firingMinutes, cooling := c.coolingMinutes)]), Done)
      else (s, Refused)
    else
      var k := Find(fs, c.id);
      if k == |fs| then (s, Refused)
      else if c.Delete? then
        if Terminal(fs[k]) then (s, Refused) else (s.(firings := fs[..k] + fs[k + 1..]), Done)
      else
        match Changed(fs, k, c, s.programs)
        case None => (s, Refused)
        case Some(f) => (s.(firings := fs[k := f]), Done)
  }

  /** The firing after a command that concerns it alone; None when the command is refused. */
  ghost function Changed(fs: seq<Firing>, k: nat, c: Command, programs: map<int, PlannedProgram>): Option<Firing>
    requires k < |fs| && !c.Create? && !c.SetHours? && !c.Delete?
  {
    var f := fs[k];
    match c
    case Write(_, _, _, _, _, _) =>
      if !Terminal(f) && WriteAccepted(fs, Written(f, c), programs) then Some(Written(f, c)) else None
    case Load(_) => if f.state == Planned then Some(f.(state := Loading)) else None
    case Start(_, now) =>
      if f.state == Loading && Compatible(f, programs) then Some(f.(state := InFire, started := Some(now))) else None
    case Finish(_, now) =>
      if f.state == InFire
      then Some(f.(state := Cooling, ended := Some(now), coolingEnd := CoolingEnd(f, now, programs))) else None
    case Unload(_, now) =>
      if f.state == Unloaded then Some(f)
      else if f.state == Cooling && !StillHot(f, now) then Some(f.(state := Unloaded)) else None
    case GiveReason(_) => if Terminal(f) then None else Some(f.(hasReason := true))
    case ForceUnload(_) =>
      if f.state == Unloaded then Some(f)
      else if f.state == Cooling && f.hasReason then Some(f.(interrupted := true, state := Unloaded)) else None
    case Cancel(_) => if f.state == Planned || f.state == Loading then Some(f.(state := Cancelled)) else None
    case _ => None
  }

  /**
   A firing whose heating ends opens without being forced exactly once its programme's
   cooling minutes have passed, and at once without a programme, whatever the hours become meanwhile.
   */
  lemma OpensOnceCooledExactly(s: Floor, id: int, now: int, c: Command, later: int)
    requires var k := Find(s.firings, id); k < |s.firings| && s.firings[k].state == InFire
    requires c.SetHours?
    ensures var f := s.firings[Find(s.firings, id)];
      var cooling := Step(s, Finish(id, now));
      var meanwhile := Step(cooling.0, c).0;
      && cooling.1 == Done && cooling.0.firings[Find(s.firings, id)].ended == Some(now)
      && (Step(meanwhile, Unload(id, later)).1 == Done <==>
            (f.program.Some? && f.program.value in s.programs ==>
               later - now >= s.programs[f.program.value].cooling))
  {
    var k := Find(s.firings, id);
    var fs := Step(s, Finish(id, now)).0.firings;
    assert fs[k].id == id && forall i | 0 <= i < k :: fs[i].id != id;
    assert Find(fs, id) == k;
  }

  ghost function Run(s: Floor, cs: seq<Command>): Floor
    decreases |cs|
  {
    if cs == [] then s else Run(Step(s, cs[0]).0, cs[1..])
  }

  // ------------------------------------------------------------ no two firings occupy a kiln at once

  ghost predicate Disjoint(s: Floor) {
    && (forall i, j | 0 <= i < j < |s.firings| :: s.firings[i].id != s.firings[j].id)
    && (forall a, b | a in s.firings && b in s.firings && a.id != b.id && Occupies(a) && Occupies(b) ::
       !Clash(a, b, s.programs))
  }

  /** With hours that are not negative, disjoint windows never hold the same minute. */
  lemma NoSharedMinute(s: Floor, a: Firing, b: Firing, minute: int)
    requires Disjoint(s) && a in s.firings && b in s.firings && a.id != b.id && Occupies(a) && Occupies(b)
      && a.kiln == b.kiln
    requires HasWindow(a, s.programs) && a.plannedStart.value <= minute < WindowEnd(a, s.programs)
    ensures !(HasWindow(b, s.programs) && b.plannedStart.value <= minute < WindowEnd(b, s.programs))
  {
    assert !Clash(a, b, s.programs);
  }

  lemma ClashSymmetric(a: Firing, b: Firing, programs: map<int, PlannedProgram>)
    ensures Clash(a, b, programs) <==> Clash(b, a, programs)
  {
  }

  /** Loading, in fire or cooling: states whose writes the slot check passes over. */
  predicate PastPlanning(f: Firing) {
    f.state != Planned && !Terminal(f)
  }

  /** The firing's programme is `p`, and the firing has a planned start. */
  predicate OnProgram(f: Firing, p: int) {
    f.program == Some(p) && f.plannedStart.Some?
  }

  /** The window's end once programme `p` lasts `minutes`. */
  function NewEnd(f: Firing, p: int, minutes: int, programs: map<int, PlannedProgram>): int
    requires HasWindow(f, programs)
  {
    if f.program == Some(p) then f.plannedStart.value + minutes else WindowEnd(f, programs)
  }

  /** Every firing on the programme ends before, or starts after, each other firing of its kiln. */
  ghost predicate HoursFit(s: Floor, p: int, minutes: int) {
    forall a, b | a in s.firings && b in s.firings && a.id != b.id && Occupies(a) && Occupies(b) && a.kiln == b.kiln
                  && OnProgram(a, p) && HasWindow(b, s.programs) ::
      a.plannedStart.value + minutes <= b.plannedStart.value
          || NewEnd(b, p, minutes, s.programs) <= a.plannedStart.value
  }

  /**
   What has to hold before a command so that kilns stay disjoint: a firing
   entered or moved past planning must fit, and new hours must fit the stored
   starts. Planned writes are checked by the source itself.
   */
  ghost predicate Checked(s: Floor, c: Command) {
    match c
    case Create(f) =>
      Find(s.firings, f.id) == |s.firings| && Compatible(f, s.programs) && PastPlanning(f) ==>
          Fits(s.firings, f, s.programs)
    case Write(id, _, _, _, _, _) =>
      var k := Find(s.firings, id);
      k < |s.firings| && !Terminal(s.firings[k]) ==>
        var f := Written(s.firings[k], c);
        Compatible(f, s.programs) && PastPlanning(f) ==> Fits(s.firings, f, s.programs)
    case SetHours(p, firing, cooling) => p in s.programs ==> HoursFit(s, p, firing + cooling)
    case _ => true
  }

  /** Replacing a firing keeps kilns disjoint exactly when it is out or fits. */
  lemma ReplaceKeepsDisjointExactly(s: Floor, k: nat, f: Firing)
    requires Disjoint(s) && k < |s.firings| && f.id == s.firings[k].id
    ensures Disjoint(s.(firings := s.firings[k := f])) <==> Terminal(f) || Fits(s.firings, f, s.programs)
  {
    var fs, fs' := s.firings, s.firings[k := f];
    hide Clash;
    assert fs[k] in fs && fs'[k] == f && f in fs';
    forall o ensures o in fs' <==> (o in fs && o.id != f.id) || o == f {
      if o in fs && o.id != f.id {
        var i :| 0 <= i < |fs| && fs[i] == o;
        assert fs'[i] == o;
      }
      if o in fs' && o.id == f.id {
        var i :| 0 <= i < |fs'| && fs'[i] == o;
      }
    }
    forall o | o in fs ensures Clash(f, o, s.programs) <==> Clash(o, f, s.programs) {
      ClashSymmetric(f, o, s.programs);
    }
  }

  /** A new firing keeps kilns disjoint exactly when it is out or fits. */
  lemma CreateKeepsDisjointExactly(s: Floor, f: Firing)
    requires Disjoint(s) && Find(s.firings, f.id) == |s.firings|
    ensures Disjoint(s.(firings := s.firings + [f])) <==> Terminal(f) || Fits(s.firings, f, s.programs)
  {
    var fs, fs' := s.firings, s.firings + [f];
    hide Clash;
    assert forall o :: o in fs' <==> o in fs || o == f;
    forall o | o in fs ensures Clash(f, o, s.programs) <==> Clash(o, f, s.programs) {
      ClashSymmetric(f, o, s.programs);
    }
  }

  /** New hours keep kilns disjoint exactly when they fit. */
  lemma HoursKeepDisjointExactly(s: Floor, p: int, firing: int, cooling: int)
    requires Disjoint(s) && p in s.programs
    ensures Disjoint(Step(s, SetHours(p, firing, cooling)).0) <==> HoursFit(s, p, firing + cooling)
  {
    var programs := Step(s, SetHours(p, firing, cooling)).0.programs;
    forall a, b ensures Clash(a, b, programs) <==> ClashesWith(a, b, p, firing + cooling, s.programs) {
      NewClash(a, b, p, firing, cooling, s.programs);
    }
    hide Clash;
    forall a, b | a in s.firings && b in s.firings && a.id != b.id && Occupies(a) && Occupies(b)
                  && !OnProgram(a, p) && !OnProgram(b, p)
      ensures Clash(a, b, programs) <==> Clash(a, b, s.programs)
    {
      OtherClash(a, b, p, firing, cooling, s.programs);
    }
    if HoursFit(s, p, firing + cooling) {
      forall a, b | a in s.firings && b in s.firings && a.id != b.id && Occupies(a) && Occupies(b)
        ensures !Clash(a, b, programs)
      {
        if !OnProgram(a, p) && OnProgram(b, p) {
          ClashSymmetric(a, b, programs);
        }
      }
    }
  }

  ghost predicate ClashesWith(a: Firing, b: Firing, p: int, minutes: int, programs: map<int, PlannedProgram>) {
    && a.kiln == b.kiln && HasWindow(a, programs) && HasWindow(b, programs)
    && a.plannedStart.value < NewEnd(b, p, minutes, programs) && NewEnd(a, p, minutes, programs) > b.plannedStart.value
  }

  lemma NewClash(a: Firing, b: Firing, p: int, firing: int, cooling: int, programs: map<int, PlannedProgram>)
    requires p in programs
    ensures Clash(a, b, programs[p := programs[p].(firing := firing, cooling := cooling)])
      <==> ClashesWith(a, b, p, firing + cooling, programs)
  {
  }

  lemma OtherClash(a: Firing, b: Firing, p: int, firing: int, cooling: int, programs: map<int, PlannedProgram>)
    requires p in programs && !OnProgram(a, p) && !OnProgram(b, p)
    ensures Clash(a, b, programs[p := programs[p].(firing := firing, cooling := cooling)]) <==> Clash(a, b, programs)
  {
  }

  ghost predicate PositiveHours(programs: map<int, PlannedProgram>) {
    forall p | p in programs :: programs[p].firing + programs[p].cooling > 0
  }

  lemma PositiveWindow(f: Firing, programs: map<int, PlannedProgram>)
    requires PositiveHours(programs) && HasWindow(f, programs)
    ensures WindowEnd(f, programs) > f.plannedStart.value
  {
    var p := f.program.value;
    assert p in programs;
  }

  /** With positive hours only the firings that start no earlier can be reached. */
  lemma HoursFitLaterStarts(s: Floor, p: int, minutes: int)
    requires Disjoint(s) && p in s.programs && PositiveHours(s.programs) && minutes > 0
    ensures HoursFit(s, p, minutes) <==>
      (forall a, b | a in s.firings && b in s.firings && a.id != b.id && Occupies(a) && Occupies(b) && a.kiln == b.kiln
                     && OnProgram(a, p) && HasWindow(b, s.programs) && a.plannedStart.value <= b.plannedStart.value ::
         a.plannedStart.value + minutes <= b.plannedStart.value)
  {
    forall a, b | a in s.firings && b in s.firings && a.id != b.id && Occupies(a) && Occupies(b) && a.kiln == b.kiln
                  && OnProgram(a, p) && HasWindow(b, s.programs)
      ensures a.plannedStart.value != b.plannedStart.value
      ensures a.plannedStart.value > b.plannedStart.value ==> WindowEnd(b, s.programs) <= a.plannedStart.value
    {
      PositiveWindow(a, s.programs);
      PositiveWindow(b, s.programs);
      assert !Clash(a, b, s.programs);
    }
    if HoursFit(s, p, minutes) {
      forall a, b | a in s.firings && b in s.firings && a.id != b.id && Occupies(a) && Occupies(b) && a.kiln == b.kiln
                    && OnProgram(a, p) && HasWindow(b, s.programs) && a.plannedStart.value <= b.plannedStart.value
        ensures a.plannedStart.value + minutes <= b.plannedStart.value
      {
        if NewEnd(b, p, minutes, s.programs) <= a.plannedStart.value {
          PositiveWindow(b, s.programs);
          assert false;
        }
      }
    }
  }

  lemma DeleteKeepsDisjoint(s: Floor, k: nat)
    requires Disjoint(s) && k < |s.firings|
    ensures Disjoint(s.(firings := s.firings[..k] + s.firings[k + 1..]))
  {
    hide Clash;
    var fs, fs' := s.firings, s.firings[..k] + s.firings[k + 1..];
    assert forall o | o in fs' :: o in fs;
    forall i, j | 0 <= i < j < |fs'| ensures fs'[i].id != fs'[j].id {
      var i', j' := if i < k then i else i + 1, if j < k then j else j + 1;
      assert fs'[i] == fs[i'] && fs'[j] == fs[j'];
    }
  }

  predicate SameWindow(a: Firing, b: Firing) {
    a.id == b.id && a.kiln == b.kiln && a.program == b.program && a.plannedStart == b.plannedStart
  }

  /** A firing that keeps its window still fits. */
  lemma SameWindowFits(s: Floor, k: nat, f: Firing)
    requires Disjoint(s) && k < |s.firings| && SameWindow(f, s.firings[k]) && Occupies(s.firings[k])
    ensures Fits(s.firings, f, s.programs)
  {
    assert s.firings[k] in s.firings;
    forall o | o in s.firings && o.id != f.id && Occupies(o) ensures !Clash(f, o, s.programs) {
      assert !Clash(s.firings[k], o, s.programs);
    }
  }

  /** One command leaves the kilns disjoint exactly when it is a checked one. */
  lemma StepKeepsDisjointExactly(s: Floor, c: Command)
    requires Disjoint(s)
    ensures Disjoint(Step(s, c).0) <==> Checked(s, c)
  {
    hide Disjoint, Clash, Fits, HoursFit;
    var fs := s.firings;
    if Step(s, c).1 == Done {
      if c.Create? {
        CreateKeepsDisjointExactly(s, c.entry);
      } else if c.SetHours? {
        HoursKeepDisjointExactly(s, c.programId, c.firingMinutes, c.coolingMinutes);
      } else {
        var k := Find(fs, c.id);
        if c.Delete? {
          DeleteKeepsDisjoint(s, k);
        } else {
          var f := Changed(fs, k, c, s.programs).value;
          ReplaceKeepsDisjointExactly(s, k, f);
          if !c.Write? && !Terminal(f) {
            SameWindowFits(s, k, f);
          }
        }
      }
    }
  }

  ghost predicate CheckedRun(s: Floor, cs: seq<Command>)
    decreases |cs|
  {
    cs != [] ==> Checked(s, cs[0]) && CheckedRun(Step(s, cs[0]).0, cs[1..])
  }

  /** Disjoint at every moment of the run. */
  ghost predicate AlwaysDisjoint(s: Floor, cs: seq<Command>)
    decreases |cs|
  {
    Disjoint(s) && (cs != [] ==> AlwaysDisjoint(Step(s, cs[0]).0, cs[1..]))
  }

  /**
   The firing-plus-cooling windows of each kiln stay disjoint throughout a run
   exactly when every command of it is a checked one.
   */
  lemma {:induction false} RunKeepsDisjointExactly(s: Floor, cs: seq<Command>)
    requires Disjoint(s)
    ensures AlwaysDisjoint(s, cs) <==> CheckedRun(s, cs)
    ensures CheckedRun(s, cs) ==> Disjoint(Run(s, cs))
    decreases |cs|
  {
    hide Disjoint, Step, Checked;
    if cs != [] {
      StepKeepsDisjointExactly(s, cs[0]);
      if Checked(s, cs[0]) {
        RunKeepsDisjointExactly(Step(s, cs[0]).0, cs[1..]);
      } else {
        NotAlways(Step(s, cs[0]).0, cs[1..]);
      }
    }
  }

  lemma NotAlways(s: Floor, cs: seq<Command>)
    ensures !Disjoint(s) ==> !AlwaysDisjoint(s, cs)
  {
  }

  // ------------------------------------------------------------ commands the source lets through unchecked

  function Slot(id: int, state: State, start: int): Firing {
    Firing(id, 1, Some(1), Bisque, state, Some(start), None, None, None, false, false)
  }

  function TwoSlots(first: State, start: int, other: int, minutes: int): Floor {
    Floor([Slot(1, first, start), Slot(2, Planned, other)], map[1 := PlannedProgram(1, Bisque, minutes, 0)])
  }

  lemma TwoSlotsDisjoint(first: State, start: int, other: int, minutes: int)
    ensures Disjoint(TwoSlots(first, start, other, minutes)) <==>
      first == Unloaded || first == Cancelled || start >= other + minutes || other >= start + minutes
  {
    var s := TwoSlots(first, start, other, minutes);
    assert s.firings[0] in s.firings && s.firings[1] in s.firings;
    ClashSymmetric(s.firings[0], s.firings[1], s.programs);
  }

  /** Moving a firing that is loading, in fire or cooling onto another's window is not refused. */
  lemma MovingPastPlanningMayClash(state: State, t: int, minutes: int)
    requires state in {Loading, InFire, Cooling} && minutes > 0
    ensures var s, c := TwoSlots(state, t + minutes, t, minutes), Write(1, 1, Some(1), Bisque, Some(t), state);
      Disjoint(s) && Step(s, c).1 == Done && !Disjoint(Step(s, c).0)
  {
    var s, c := TwoSlots(state, t + minutes, t, minutes), Write(1, 1, Some(1), Bisque, Some(t), state);
    TwoSlotsDisjoint(state, t + minutes, t, minutes);
    TwoSlotsDisjoint(state, t, t, minutes);
    assert Find(s.firings, 1) == 0;
    assert Step(s, c).0.firings == TwoSlots(state, t, t, minutes).firings;
  }

  /** Longer hours stretch the stored windows of planned firings into each other. */
  lemma LongerHoursMayClash(minutes: nat, firing: nat, cooling: nat)
    requires firing + cooling > minutes > 0
    ensures var s, c := TwoSlots(Planned, 0, minutes, minutes), SetHours(1, firing, cooling);
      Disjoint(s) && Step(s, c).1 == Done && !Disjoint(Step(s, c).0)
  {
    var s := TwoSlots(Planned, 0, minutes, minutes);
    TwoSlotsDisjoint(Planned, 0, minutes, minutes);
    var s' := Step(s, SetHours(1, firing, cooling)).0;
    assert s'.firings[0] in s'.firings && s'.firings[1] in s'.firings;
    assert Clash(s'.firings[0], s'.firings[1], s'.programs);
  }

  /** A firing recorded past planning enters without a slot check. */
  lemma EnteringPastPlanningMayClash(state: State, t: int, minutes: int)
    requires state in {Loading, InFire, Cooling} && minutes > 0
    ensures var s := Floor([Slot(2, Planned, t)], map[1 := PlannedProgram(1, Bisque, minutes, 0)]);
      Disjoint(s) && Step(s, Create(Slot(1, state, t))).1 == Done && !Disjoint(Step(s, Create(Slot(1, state, t))).0)
  {
    var s := Floor([Slot(2, Planned, t)], map[1 := PlannedProgram(1, Bisque, minutes, 0)]);
    var s' := Step(s, Create(Slot(1, state, t))).0;
    assert Find(s.firings, 1) == 1;
    assert s'.firings[0] in s'.firings && s'.firings[1] in s'.firings;
    assert Clash(s'.firings[0], s'.firings[1], s'.programs);
  }

  // ------------------------------------------------------------ the life of a firing

  /** Completed and cancelled firings never change again and are never deleted. */
  lemma {:induction false} TerminalIsForever(s: Floor, cs: seq<Command>, f: Firing)
    requires f in s.firings && Terminal(f) && forall i, j | 0 <= i < j < |s.firings| ::
      s.firings[i].id != s.firings[j].id
    ensures f in Run(s, cs).firings
    decreases |cs|
  {
    hide WriteAccepted;
    if cs != [] {
      var c, s' := cs[0], Step(s, cs[0]).0;
      var i :| 0 <= i < |s.firings| && s.firings[i] == f;
      TerminalSurvivesStep(s, c, i);
      TerminalIsForever(s', cs[1..], f);
    }
  }

  ghost predicate DistinctIds(fs: seq<Firing>) {
    forall i, j | 0 <= i < j < |fs| :: fs[i].id != fs[j].id
  }

  lemma TerminalSurvivesStep(s: Floor, c: Command, i: nat)
    requires i < |s.firings| && Terminal(s.firings[i]) && DistinctIds(s.firings)
    ensures s.firings[i] in Step(s, c).0.firings && DistinctIds(Step(s, c).0.firings)
  {
    hide WriteAccepted;
    var fs, fs' := s.firings, Step(s, c).0.firings;
    if Step(s, c).1 == Done && !c.SetHours? {
      if c.Create? {
        assert fs'[i] == fs[i];
      } else {
        var k := Find(fs, c.id);
        if c.Delete? {
          assert fs'[if i < k then i else i - 1] == fs[i];
          forall a, b | 0 <= a < b < |fs'| ensures fs'[a].id != fs'[b].id {
            var a', b' := if a < k then a else a + 1, if b < k then b else b + 1;
            assert fs'[a] == fs[a'] && fs'[b] == fs[b'];
          }
        } else {
          assert fs'[i] == fs[i];
        }
      }
    }
  }

  /** An unloaded kiln has cooled, or was opened early on the record. */
  ghost predicate CooledOrRecorded(f: Firing, now: int) {
    f.state == Unloaded ==> !StillHot(f, now) || (f.interrupted && f.hasReason)
  }

  /** A firing becomes unloaded through the two actions only, none of them later than `now`. */
  predicate ThroughActions(c: Command, now: int) {
    && (c.Create? ==> c.entry.state != Unloaded)
    && (c.Write? ==> c.state != Unloaded)
    && (c.Unload? ==> c.now <= now)
  }

  lemma StepUnloadsHonestly(s: Floor, c: Command, now: int)
    requires ThroughActions(c, now) && forall x | x in s.firings :: CooledOrRecorded(x, now)
    ensures forall f | f in Step(s, c).0.firings :: CooledOrRecorded(f, now)
  {
    hide WriteAccepted, CoolingEnd;
    var fs := s.firings;
    if Step(s, c).1 == Done && !c.Create? && !c.SetHours? {
      assert fs[Find(fs, c.id)] in fs;
    }
  }

  /**
   Whatever happens through the actions, no kiln was unloaded hot without the interruption
   and its reason on record.
   */
  lemma {:induction false} UnloadingIsHonest(s: Floor, cs: seq<Command>, now: int, f: Firing)
    requires forall c | c in cs :: ThroughActions(c, now)
    requires forall x | x in s.firings :: CooledOrRecorded(x, now)
    requires f in Run(s, cs).firings
    ensures CooledOrRecorded(f, now)
    decreases |cs|
  {
    hide Step, CooledOrRecorded;
    if cs != [] {
      assert cs[0] in cs;
      StepUnloadsHonestly(s, cs[0], now);
      UnloadingIsHonest(Step(s, cs[0]).0, cs[1..], now, f);
    }
  }
}
