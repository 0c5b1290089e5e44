/** The kiln actions as the record methods carry them out. */
module KilnFloor {
  import opened Common
  import opened KilnSlots

  class Kilns {
    var firings: seq<Firing>
    var programs: map<int, PlannedProgram>

    function Now(): Floor
      reads this
    {
      Floor(firings, programs)
    }

    /** The constraint on a planned firing: it needs a window, and no occupying firing of its kiln may clash. */
    method CheckPlannedSlot(f: Firing) returns (free: bool)
      ensures free <==> SlotFree(firings, f, programs)
    {
      if f.plannedStart.None? || f.program.None? || f.program.value !in programs {
        return false;
      }
      for i := 0 to |firings|
        invariant forall o | o in firings[..i] && o.id != f.id && Occupies(o) :: !Clash(f, o, programs)
      {
        var o := firings[i];
        assert o in firings && firings[..i + 1] == firings[..i] + [o];
        if o.id != f.id && o.kiln == f.kiln && o.state in {Planned, Loading, InFire, Cooling}
            && HasWindow(o, programs) {
          if o.plannedStart.value < WindowEnd(f, programs) && WindowEnd(o, programs) > f.plannedStart.value {
            return false;
          }
        }
      }
      assert firings[..|firings|] == firings;
      return true;
    }

    method CheckWrite(f: Firing) returns (accepted: bool)
      ensures accepted <==> WriteAccepted(firings, f, programs)
    {
      if f.state == Planned {
        accepted := CheckPlannedSlot(f);
      } else {
        accepted := true;
      }
      if accepted {
        accepted := CheckLoadCompatibility(f);
      }
    }

    /** The programme belongs to the firing's kiln and kind. */
    method CheckLoadCompatibility(f: Firing) returns (accepted: bool)
      ensures accepted <==> Compatible(f, programs)
    {
      if f.program.None? {
        return true;
      }
      if f.program.value !in programs {
        return false;
      }
      var program := programs[f.program.value];
      accepted := program.kiln == f.kiln && program.kind == f.kind;
    }

    method CreateFiring(f: Firing) returns (outcome: Outcome)
      modifies this
      ensures (Now(), outcome) == Step(old(Now()), Create(f))
    {
      if Find(firings, f.id) < |firings| {
        return Refused;
      }
      var accepted := CheckWrite(f);
      if !accepted {
        return Refused;
      }
      firings := firings + [f];
      outcome := Done;
    }

    method WriteFiring(id: int, kiln: int, program: Option<int>, kind: FiringKind, plannedStart: Option<int>,
                       state: State)
      returns (outcome: Outcome)
      modifies this
      ensures (Now(), outcome) == Step(old(Now()), Write(id, kiln, program, kind, plannedStart, state))
    {
      var k := Find(firings, id);
      if k == |firings| || Terminal(firings[k]) {
        return Refused;
      }
      var f := firings[k].(kiln := kiln, program := program, kind := kind, plannedStart := plannedStart,
          state := state);
      var accepted := CheckWrite(f);
      if !accepted {
        return Refused;
      }
      firings := firings[k := f];
      outcome := Done;
    }

    method ActionLoad(id: int) returns (outcome: Outcome)
      modifies this
      ensures (Now(), outcome) == Step(old(Now()), Load(id))
    {
      var k := Find(firings, id);
      if k == |firings| || firings[k].state != Planned {
        return Refused;
      }
      firings := firings[k := firings[k].(state := Loading)];
      outcome := Done;
    }

    method ActionStart(id: int, now: int) returns (outcome: Outcome)
      modifies this
      ensures (Now(), outcome) == Step(old(Now()), Start(id, now))
    {
      var k := Find(firings, id);
      if k == |firings| || firings[k].state != Loading {
        return Refused;
      }
      var accepted := CheckLoadCompatibility(firings[k]);
      if !accepted {
        return Refused;
      }
      firings := firings[k := firings[k].(state := InFire, started := Some(now))];
      outcome := Done;
    }

    method ActionFinish(id: int, now: int) returns (outcome: Outcome)
      modifies this
      ensures (Now(), outcome) == Step(old(Now()), Finish(id, now))
    {
      var k := Find(firings, id);
      if k == |firings| || firings[k].state != InFire {
        return Refused;
      }
      var f := firings[k];
      var coolingEnd := None;
      if f.program.Some? && f.program.value in programs {
        coolingEnd := Some(now + programs[f.program.value].cooling);
      }
      firings := firings[k := f.(state := Cooling, ended := Some(now), coolingEnd := coolingEnd)];
      outcome := Done;
    }

    method ActionUnload(id: int, now: int) returns (outcome: Outcome)
      modifies this
      ensures (Now(), outcome) == Step(old(Now()), Unload(id, now))
    {
      var k := Find(firings, id);
      if k == |firings| {
        return Refused;
      }
      if firings[k].state == Unloaded {
        assert firings[k := firings[k]] == firings;
        return Done;
      }
      if firings[k].state != Cooling || (firings[k].coolingEnd.Some? && firings[k].coolingEnd.value > now) {
        return Refused;
      }
      firings := firings[k := firings[k].(state := Unloaded)];
      outcome := Done;
    }

    method ActionForceUnload(id: int) returns (outcome: Outcome)
      modifies this
      ensures (Now(), outcome) == Step(old(Now()), ForceUnload(id))
    {
      var k := Find(firings, id);
      if k == |firings| {
        return Refused;
      }
      if firings[k].state == Unloaded {
        assert firings[k := firings[k]] == firings;
        return Done;
      }
      if firings[k].state != Cooling || !firings[k].hasReason {
        return Refused;
      }
      firings := firings[k := firings[k].(interrupted := true, state := Unloaded)];
      outcome := Done;
    }

    method ActionCancel(id: int) returns (outcome: Outcome)
      modifies this
      ensures (Now(), outcome) == Step(old(Now()), Cancel(id))
    {
      var k := Find(firings, id);
      if k == |firings| || firings[k].state !in {Planned, Loading} {
        return Refused;
      }
      firings := firings[k := firings[k].(state := Cancelled)];
      outcome := Done;
    }
  }
}
