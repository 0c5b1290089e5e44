/** The ledger's actions, as the record methods carry them out step by step. */
module LedgerOperations {
  import opened Common
  import opened Sorting
  import opened Events
  import opened Ledger
  import Periods
  import Recognition

  class UrssafLedger {
    var declarations: seq<Declaration>
    var trackingStart: Option<int>
    var horizon: Option<int>

    function State(): LedgerState
      reads this
    {
      LedgerState(declarations, trackingStart, horizon)
    }

    constructor ()
      ensures State() == LedgerState([], None, None)
    {
      declarations, trackingStart, horizon := [], None, None;
    }

    method CreateDeclaration(newId: int, dateFrom: int, dateTo: int) returns (outcome: Outcome)
      modifies this
      ensures (State(), outcome) == Step(old(State()), Create(newId, dateFrom, dateTo))
    {
      if Find(declarations, newId) < |declarations| {
        return Refused;
      }
      outcome := Periods.CheckPeriod(PeriodsOf(declarations), Periods.Period(newId, dateFrom, dateTo));
      if outcome == Done {
        declarations := declarations + [Declaration(newId, dateFrom, dateTo, false, false, [], map[], false)];
      }
    }

    method MoveDeclaration(id: int, dateFrom: int, dateTo: int) returns (outcome: Outcome)
      modifies this
      ensures (State(), outcome) == Step(old(State()), Move(id, dateFrom, dateTo))
    {
      var k := Find(declarations, id);
      if k == |declarations| || declarations[k].filed {
        return Refused;
      }
      outcome := Periods.CheckPeriod(PeriodsOf(declarations), Periods.Period(id, dateFrom, dateTo));
      if outcome == Done {
        declarations := declarations[k := declarations[k].(dateFrom := dateFrom, dateTo := dateTo)];
      }
    }

    /** An adjustment of one box; only zero needs no reason. */
    method WriteAdjustment(id: int, category: Category, amount: int, reasoned: bool) returns (outcome: Outcome)
      modifies this
      ensures (State(), outcome) == Step(old(State()), Adjust(id, category, amount, reasoned))
    {
      var k := Find(declarations, id);
      if k == |declarations| || declarations[k].filed {
        return Refused;
      }
      if amount != 0 && !reasoned {
        return Refused;
      }
      var box := declarations[k].adjustments[category := amount];
      declarations := declarations[k := declarations[k].(adjustments := box)];
      outcome := Done;
    }

    method DeleteDeclaration(id: int) returns (outcome: Outcome)
      modifies this
      ensures (State(), outcome) == Step(old(State()), Delete(id))
    {
      var k := Find(declarations, id);
      if k == |declarations| || declarations[k].filed {
        return Refused;
      }
      declarations := declarations[..k] + declarations[k + 1..];
      outcome := Done;
    }

    /** Who else claims which key. */
    method ClaimedSources(k: nat) returns (claimed: map<EventKey, nat>)
      ensures forall key :: key in claimed <==> Claimed(declarations, k, key)
      ensures forall key | key in claimed ::
        claimed[key] < |declarations| && claimed[key] != k && Holds(declarations[claimed[key]], key)
    {
      claimed := map[];
      for j := 0 to |declarations|
        invariant forall key | key in claimed ::
          claimed[key] < j && claimed[key] != k && Holds(declarations[claimed[key]], key)
        invariant forall i, key | 0 <= i < j && i != k && Holds(declarations[i], key) :: key in claimed
      {
        if j != k {
          ghost var before := claimed;
          var sources := declarations[j].sources;
          for i := 0 to |sources|
            invariant forall key | key in claimed ::
              claimed[key] <= j && claimed[key] != k && Holds(declarations[claimed[key]], key)
            invariant forall x | x in sources[..i] :: x.event.key in claimed
            invariant forall key | key in before :: key in claimed
          {
            assert sources[i] in declarations[j].sources;
            assert sources[..i + 1] == sources[..i] + [sources[i]];
            claimed := claimed[sources[i].event.key := j];
          }
          assert sources[..|sources|] == sources;
        }
      }
    }

    /** Evidence for the events nobody else claims, and whether anything stands in the way of filing. */
    method Collect(events: seq<Event>, k: nat, review: Review) returns (sources: seq<Source>, anomalous: bool)
      requires k < |declarations| && OneHolder(declarations)
      ensures sources == Evidence(events, declarations, k, declarations[k].dateFrom)
      ensures anomalous == Anomalous(events, declarations, k, sources, review)
    {
      hide NegativeBox, Holds, ClaimedByDraft, Claimed, OneHolder;
      var claimed := ClaimedSources(k);
      var dateFrom := declarations[k].dateFrom;
      var draftClaim, unproven := false, false;
      sources := [];
      for i := 0 to |events|
        invariant sources + Evidence(events[i..], declarations, k, dateFrom)
          == Evidence(events, declarations, k, dateFrom)
        invariant draftClaim <==> exists e | e in events[..i] :: ClaimedByDraft(declarations, k, e.key)
        invariant unproven <==> exists s | s in sources :: !s.event.methodKnown
      {
        var event := events[i];
        EvidenceStep(events, i, k, dateFrom);
        ClaimStatus(claimed, k, event.key);
        assert events[..i + 1] == events[..i] + [event];
        if event.key in claimed {
          draftClaim := draftClaim || !declarations[claimed[event.key]].filed;
        } else {
          var source := Source(event, event.date < dateFrom);
          AppendOne(sources, source, Evidence(events[i + 1..], declarations, k, dateFrom));
          sources := sources + [source];
          unproven := unproven || !event.methodKnown;
        }
      }
      assert events[..|events|] == events && events[|events|..] == [];
      anomalous := review.otherAnomaly || draftClaim || unproven || NegativeBox(declarations[k], sources);
    }

    lemma EvidenceStep(events: seq<Event>, i: nat, k: nat, dateFrom: int)
      requires i < |events|
      ensures var rest := Evidence(events[i + 1..], declarations, k, dateFrom);
        Evidence(events[i..], declarations, k, dateFrom)
        == if Claimed(declarations, k, events[i].key) then rest
           else [Source(events[i], events[i].date < dateFrom)] + rest
    {
      assert events[i..][1..] == events[i + 1..];
    }

    /** A key claimed elsewhere is claimed by one declaration only, so its state decides. */
    lemma ClaimStatus(claimed: map<EventKey, nat>, k: nat, key: EventKey)
      requires OneHolder(declarations) && (key in claimed <==> Claimed(declarations, k, key))
      requires key in claimed ==>
        claimed[key] < |declarations| && claimed[key] != k && Holds(declarations[claimed[key]], key)
      ensures ClaimedByDraft(declarations, k, key) <==> key in claimed && !declarations[claimed[key]].filed
    {
      if key in claimed {
        forall i | 0 <= i < |declarations| && i != claimed[key] ensures !Holds(declarations[i], key) {
          OnlyHolder(declarations, claimed[key], i, key);
        }
      }
    }

    method ActionCompute(id: int, books: Recognition.Books, review: Review) returns (outcome: Outcome)
      requires Valid(State()) && Recognition.WellFormed(books)
      modifies this
      ensures (State(), outcome) == Step(old(State()), Compute(id, books, review))
    {
      hide Evidence, Anomalous, Recognition.RecognitionEvents;
      var k := Find(declarations, id);
      if k == |declarations| || declarations[k].filed || trackingStart.None? || review.mandateBlocked {
        return Refused;
      }
      var events := Recognition.RecognitionEventsLoop(books, trackingStart.value, declarations[k].dateTo);
      var sources, anomalous := Collect(events, k, review);
      declarations := declarations[k := declarations[k].(sources := sources, blocking := anomalous)];
      outcome := Done;
    }

    /** The least horizon that covers the date and is not moved back. */
    method AdvanceHorizon(date: int)
      modifies this`horizon
      ensures horizon.Some? && horizon.value >= date
      ensures old(horizon).Some? ==> horizon.value >= old(horizon).value
      ensures horizon == old(horizon) || horizon == Some(date)
    {
      if horizon.None? || date > horizon.value {
        horizon := Some(date);
      }
    }

    /** Recomputes, refuses on any anomaly, closes the horizon and freezes. A refusal rolls the computation back. */
    method ActionFile(id: int, books: Recognition.Books, review: Review) returns (outcome: Outcome)
      requires Valid(State()) && Recognition.WellFormed(books)
      modifies this
      ensures (State(), outcome) == Step(old(State()), File(id, books, review))
    {
      hide Evidence, Anomalous, Recognition.RecognitionEvents;
      var saved := declarations;
      ghost var before := State();
      outcome := ActionCompute(id, books, review);
      if outcome == Refused {
        return;
      }
      var k := Find(saved, id);
      ghost var computed := Computed(before, k, books, review);
      assert State() == Replace(before, k, computed);
      if declarations[k].blocking {
        declarations := saved;
        return Refused;
      }
      ComputedFrame(before, k, books, review);
      AdvanceHorizon(declarations[k].dateTo);
      declarations := declarations[k := declarations[k].(filed := true, hasReason := false)];
      assert declarations == saved[k := computed.(filed := true, hasReason := false)];
    }

    method ActionResetToDraft(id: int) returns (outcome: Outcome)
      modifies this
      ensures (State(), outcome) == Step(old(State()), Reset(id))
    {
      var k := Find(declarations, id);
      if k == |declarations| {
        return Refused;
      }
      outcome := Done;
      if declarations[k].filed {
        if !declarations[k].hasReason {
          return Refused;
        }
        declarations := declarations[k := declarations[k].(filed := false)];
      } else {
        assert declarations[k := declarations[k].(filed := false)] == declarations;
      }
    }

    /** Direct writes of the company's closing horizon. */
    method WriteHorizon(newHorizon: Option<int>) returns (outcome: Outcome)
      modifies this
      ensures (State(), outcome) == Step(old(State()), SetHorizon(newHorizon))
    {
      if horizon.Some? && (newHorizon.None? || newHorizon.value < horizon.value) {
        return Refused;
      }
      horizon := newHorizon;
      outcome := Done;
    }
  }
}
