/** The manufacturing component around one lot: all productions and lots connected to it. */
module LotTrace {
  import opened Common
  import opened Paths

  /** A stock move line; its move finishes or consumes for a production, or neither. */
  datatype MoveLine = MoveLine(lot: int, outputOf: Option<int>, inputOf: Option<int>)

  datatype Stock = Stock(lines: set<MoveLine>, producing: set<(int, int)>)

  /** The production made, consumed or is set to produce the lot. */
  predicate Connected(s: Stock, production: int, lot: int) {
    || (exists l | l in s.lines :: l.lot == lot && (l.outputOf == Some(production) || l.inputOf == Some(production)))
    || (production, lot) in s.producing
  }

  function OutputProductions(s: Stock, lots: set<int>): set<int> {
    set l | l in s.lines && l.lot in lots && l.outputOf.Some? :: l.outputOf.value
  }

  function InputProductions(s: Stock, lots: set<int>): set<int> {
    set l | l in s.lines && l.lot in lots && l.inputOf.Some? :: l.inputOf.value
  }

  function ProducingProductions(s: Stock, lots: set<int>): set<int> {
    set x | x in s.producing && x.1 in lots :: x.0
  }

  /** Lots a set of productions is set to produce, finished or consumed. */
  function LotsOf(s: Stock, productions: set<int>): set<int> {
    (set x | x in s.producing && x.0 in productions :: x.1)
    + (set l | l in s.lines && l.outputOf.Some? && l.outputOf.value in productions :: l.lot)
    + (set l | l in s.lines && l.inputOf.Some? && l.inputOf.value in productions :: l.lot)
  }

  /** Two lots meet in one production. */
  ghost function Meet(s: Stock): (int, int) -> bool {
    (a, b) => exists p :: Connected(s, p, a) && Connected(s, p, b)
  }

  ghost predicate SameComponent(s: Stock, a: int, b: int) {
    Reaches(Meet(s), a, b)
  }

  ghost predicate InComponent(s: Stock, start: int, production: int) {
    exists lot :: Connected(s, production, lot) && SameComponent(s, start, lot)
  }

  function AllProductions(s: Stock): set<int> {
    (set l | l in s.lines && l.outputOf.Some? :: l.outputOf.value)
    + (set l | l in s.lines && l.inputOf.Some? :: l.inputOf.value)
    + (set x | x in s.producing :: x.0)
  }

  method ConnectedTrace(s: Stock, start: int) returns (productions: set<int>, lots: set<int>)
    ensures forall lot :: lot in lots <==> SameComponent(s, start, lot)
    ensures forall p :: p in productions <==> InComponent(s, start, p)
  {
    productions, lots := {}, {start};
    var frontier := {start};
    ReachesItself(Meet(s), start);
    while frontier != {}
      invariant start in lots && frontier <= lots && productions <= AllProductions(s)
      invariant forall lot | lot in lots :: SameComponent(s, start, lot)
      invariant forall p | p in productions :: InComponent(s, start, p)
      invariant forall p, lot | p in productions && Connected(s, p, lot) :: lot in lots
      invariant forall p, lot | lot in lots - frontier && Connected(s, p, lot) :: p in productions
      decreases |AllProductions(s) - productions|, |frontier|
    {
      var connected := OutputProductions(s, frontier) + InputProductions(s, frontier)
          + ProducingProductions(s, frontier);
      ConnectedProductions(s, frontier, connected);
      var unseen := connected - productions;
      if unseen == {} {
        break;
      }
      ghost var before, lotsBefore := productions, lots;
      productions := productions + unseen;
      var connectedLots := LotsOf(s, unseen);
      ConnectedLots(s, unseen);
      forall lot | lot in connectedLots ensures SameComponent(s, start, lot) {
        ReachedThrough(s, start, frontier, unseen, lot);
      }
      frontier := connectedLots - lots;
      lots := lots + connectedLots;
      FewerOutside(AllProductions(s), before, productions);
    }
    forall p, lot | lot in lots && Connected(s, p, lot) ensures p in productions {
    }
    forall lot | SameComponent(s, start, lot) ensures lot in lots {
      ClosedSetHasReachable(Meet(s), lots, start, lot);
    }
  }

  lemma ConnectedProductions(s: Stock, lots: set<int>, connected: set<int>)
    requires connected == OutputProductions(s, lots) + InputProductions(s, lots) + ProducingProductions(s, lots)
    ensures forall p :: p in connected <==> exists lot :: lot in lots && Connected(s, p, lot)
    ensures connected <= AllProductions(s)
  {
    forall p ensures p in connected <==> exists lot :: lot in lots && Connected(s, p, lot) {
      if p in ProducingProductions(s, lots) {
        var x :| x in s.producing && x.1 in lots && x.0 == p;
        assert x == (p, x.1);
        assert x.1 in lots && Connected(s, p, x.1);
      } else if p in connected {
        var l :| l in s.lines && l.lot in lots && (l.outputOf == Some(p) || l.inputOf == Some(p));
        assert l.lot in lots && Connected(s, p, l.lot);
      }
    }
  }

  lemma ConnectedLots(s: Stock, productions: set<int>)
    ensures forall lot :: lot in LotsOf(s, productions) <==> exists p :: p in productions && Connected(s, p, lot)
  {
    forall lot ensures lot in LotsOf(s, productions) <==> exists p :: p in productions && Connected(s, p, lot) {
      if lot in LotsOf(s, productions) {
        if x :| x in s.producing && x.0 in productions && x.1 == lot {
          assert x == (x.0, lot);
          assert x.0 in productions && Connected(s, x.0, lot);
        } else if l :| l in s.lines && l.outputOf.Some? && l.outputOf.value in productions && l.lot == lot {
          assert l.outputOf.value in productions && Connected(s, l.outputOf.value, lot);
        } else {
          var l :| l in s.lines && l.inputOf.Some? && l.inputOf.value in productions && l.lot == lot;
          assert l.inputOf.value in productions && Connected(s, l.inputOf.value, lot);
        }
      }
    }
  }

  lemma ReachedThrough(s: Stock, start: int, frontier: set<int>, unseen: set<int>, lot: int)
    requires forall l | l in frontier :: SameComponent(s, start, l)
    requires forall p | p in unseen :: exists l :: l in frontier && Connected(s, p, l)
    requires exists p :: p in unseen && Connected(s, p, lot)
    ensures SameComponent(s, start, lot)
  {
    var p :| p in unseen && Connected(s, p, lot);
    var l :| l in frontier && Connected(s, p, l);
    ReachesOneFurther(Meet(s), start, l, lot);
  }

  /** Every lot of a component gets the same answer. */
  lemma ComponentIsShared(s: Stock, a: int, b: int)
    requires SameComponent(s, a, b)
    ensures forall lot :: SameComponent(s, a, lot) <==> SameComponent(s, b, lot)
    ensures forall p :: InComponent(s, a, p) <==> InComponent(s, b, p)
  {
    ReachesSymmetric(Meet(s), a, b);
    forall lot ensures SameComponent(s, a, lot) <==> SameComponent(s, b, lot) {
      if SameComponent(s, a, lot) { ReachesTransitive(Meet(s), b, a, lot); }
      if SameComponent(s, b, lot) { ReachesTransitive(Meet(s), a, b, lot); }
    }
  }
}
