/**
 Bisque inspection: closing a fired order by what came out whole and what was
 lost. Odoo's own completion is kept to its promise: it puts the produced
 quantity on hand, in the producing lots, or leaves the order open.
 */
module Inspection {
  import opened Common
  import opened Boards

  datatype Tracking = Untracked | ByLot | BySerial

  /** A stock movement at the orders' destination. */
  datatype Move = Move(product: int, lot: Option<int>, quantity: real)

  datatype Loss = Loss(order: int, product: int, quantity: real, operation: Option<int>, reason: string)

  /**
   An operation of the order: whether it is a bisque firing, whether its firing is
   unloaded, whether it is finished.
   */
  datatype Stage = Stage(firing: bool, unloaded: bool, finished: bool)

  datatype Line = Line(quantity: real, hasLot: bool)

  datatype Material = Material(demand: real, tracked: bool, lines: seq<Line>)

  /** The wizard refuses negative quantities. */
  type Amount = q: real | q >= 0.0

  /** The wizard's entries and what it reads from the order. */
  datatype Sheet = Sheet(
    order: int, product: int, tracking: Tracking, accepted: Amount, loss: Amount, reason: string,
        operation: Option<int>,
    stages: seq<Stage>, materials: seq<Material>, completes: bool)

  datatype World = World(
    shop: Shop, closed: set<int>, moves: seq<Move>, losses: seq<Loss>, nextLot: int)

  // ------------------------------------------------------------ what is checked

  function Reserved(lines: seq<Line>): real {
    if lines == [] then 0.0 else lines[0].quantity + Reserved(lines[1..])
  }

  predicate Exact(m: Material) {
    Reserved(m.lines) == m.demand && (m.tracked ==> forall l | l in m.lines :: l.quantity != 0.0 ==> l.hasLot)
  }

  predicate Ready(stages: seq<Stage>) {
    (exists s :: s in stages && s.firing) && forall s | s in stages :: s.finished && (s.firing ==> s.unloaded)
  }

  predicate MayConfirm(w: World, h: Sheet) {
    && h.order in w.shop.orders && h.order !in w.closed
    && h.accepted + h.loss == w.shop.orders[h.order].quantity
    && Ready(h.stages)
    && (h.loss != 0.0 ==> h.reason != "")
    && forall m | m in h.materials :: Exact(m)
  }

  /** A serial-tracked quantity is a whole number of pieces. */
  predicate Lottable(tracking: Tracking, q: real) {
    tracking == BySerial ==> q == q.Floor as real
  }

  // ------------------------------------------------------------ lots and stock

  function LotCount(tracking: Tracking, q: Amount): nat {
    if q == 0.0 then 0 else match tracking case Untracked => 0 case ByLot => 1 case BySerial => q.Floor
  }

  /** What completing with this quantity brings in, one movement a lot. */
  function Output(product: int, tracking: Tracking, q: Amount, first: int): seq<Move> {
    if q == 0.0 then []
    else match tracking
    case Untracked => [Move(product, None, q)]
    case ByLot => [Move(product, Some(first), q)]
    case BySerial => seq(q.Floor, k requires 0 <= k < q.Floor => Move(product, Some(first + k), 1.0))
  }

  function OnHand(moves: seq<Move>, product: int, lot: Option<int>): real {
    if moves == [] then 0.0
    else
      (if moves[0].product == product && moves[0].lot == lot then moves[0].quantity else 0.0)
      + OnHand(moves[1..], product, lot)
  }

  function Stock(moves: seq<Move>, product: int): real {
    if moves == [] then 0.0
    else (if moves[0].product == product then moves[0].quantity else 0.0) + Stock(moves[1..], product)
  }

  function Lost(losses: seq<Loss>, product: int): real {
    if losses == [] then 0.0
    else (if losses[0].product == product then losses[0].quantity else 0.0) + Lost(losses[1..], product)
  }

  /** Scrapping needs the quantity on hand; None when Odoo finds it missing. */
  function Scrapped(moves: seq<Move>, output: seq<Move>): Option<seq<Move>>
    decreases |output|
  {
    if output == [] then Some(moves)
    else if OnHand(moves, output[0].product, output[0].lot) < output[0].quantity then None
    else Scrapped(moves + [Back(output[0])], output[1..])
  }

  function Back(m: Move): Move {
    m.(quantity := -m.quantity)
  }

  // ------------------------------------------------------------ the confirmation

  function CurrentRows(contents: seq<Content>, order: int): set<nat> {
    set i: nat | i < |contents| && contents[i].state == Current && contents[i].order == order
  }

  /** The loss record, when anything was lost. */
  function Recorded(h: Sheet): seq<Loss> {
    if h.loss != 0.0 then [Loss(h.order, h.product, h.loss, h.operation, h.reason)] else []
  }

  /** The order's boards are cleared. */
  function Cleared(s: Shop, order: int): Shop {
    s.(contents := ChangedAt(s.contents, CurrentRows(s.contents, order), REMOVAL))
  }

  /** The stock after the confirmation; None when a lot or a scrap is refused. */
  function StockAfter(moves: seq<Move>, h: Sheet, quantity: Amount, first: int): Option<seq<Move>> {
    if h.accepted != 0.0 then
      if Lottable(h.tracking, h.accepted) then Some(moves + Output(h.product, h.tracking, h.accepted, first)) else None
    else if !Lottable(h.tracking, quantity) then None
    else Scrapped(moves + Output(h.product, h.tracking, quantity, first),
        Output(h.product, h.tracking, quantity, first))
  }

  /** None when the wizard raises. */
  function Confirm(w: World, h: Sheet): Option<World> {
    if !MayConfirm(w, h) || !h.completes then None
    else
      var quantity := w.shop.orders[h.order].quantity;
      var moves := StockAfter(w.moves, h, quantity, w.nextLot);
      if moves.None? || AfterWrite(w.shop, CurrentRows(w.shop.contents, h.order), REMOVAL).None? then None
      else
        Some(World(
          Cleared(w.shop, h.order), w.closed + {h.order}, moves.value,
          w.losses + Recorded(h),
          w.nextLot + LotCount(h.tracking, if h.accepted != 0.0 then h.accepted else quantity)))
  }

  // ------------------------------------------------------------ stock arithmetic

  lemma {:induction false} OnHandOfConcat(a: seq<Move>, b: seq<Move>, product: int, lot: Option<int>)
    ensures OnHand(a + b, product, lot) == OnHand(a, product, lot) + OnHand(b, product, lot)
  {
    if a == [] {
      assert a + b == b;
    } else {
      assert (a + b)[1..] == a[1..] + b;
      OnHandOfConcat(a[1..], b, product, lot);
    }
  }

  lemma {:induction false} StockOfConcat(a: seq<Move>, b: seq<Move>, product: int)
    ensures Stock(a + b, product) == Stock(a, product) + Stock(b, product)
  {
    if a == [] {
      assert a + b == b;
    } else {
      assert (a + b)[1..] == a[1..] + b;
      StockOfConcat(a[1..], b, product);
    }
  }

  lemma {:induction false} LostOfConcat(a: seq<Loss>, b: seq<Loss>, product: int)
    ensures Lost(a + b, product) == Lost(a, product) + Lost(b, product)
  {
    if a == [] {
      assert a + b == b;
    } else {
      assert (a + b)[1..] == a[1..] + b;
      LostOfConcat(a[1..], b, product);
    }
  }

  lemma {:induction false} NoneOnHand(moves: seq<Move>, product: int, lot: Option<int>)
    requires forall m | m in moves :: m.product == product ==> m.lot != lot
    ensures OnHand(moves, product, lot) == 0.0
  {
    if moves != [] {
      assert moves[0] in moves;
      forall m | m in moves[1..] ensures m in moves {}
      NoneOnHand(moves[1..], product, lot);
    }
  }

  /** No two movements of the output share a lot. */
  ghost predicate Separate(output: seq<Move>) {
    forall i, j | 0 <= i < j < |output| :: output[i].lot != output[j].lot
  }

  lemma {:induction false} UnitsAddUp(output: seq<Move>, product: int)
    requires forall m | m in output :: m.product == product && m.quantity == 1.0
    ensures Stock(output, product) == |output| as real
    ensures forall p | p != product :: Stock(output, p) == 0.0
  {
    if output != [] {
      assert output[0] in output;
      forall m | m in output[1..] ensures m in output {}
      UnitsAddUp(output[1..], product);
    }
  }

  /** Completing brings in exactly the produced quantity. */
  lemma OutputAddsUp(product: int, tracking: Tracking, q: Amount, first: int, p: int)
    requires Lottable(tracking, q)
    ensures Stock(Output(product, tracking, q, first), p) == if p == product then q else 0.0
    ensures Separate(Output(product, tracking, q, first))
    ensures LotCount(tracking, q) == if tracking == Untracked then 0 else |Output(product, tracking, q, first)|
  {
    var output := Output(product, tracking, q, first);
    if tracking == BySerial {
      UnitsAddUp(output, product);
    } else if q != 0.0 {
      assert output[1..] == [];
    }
  }

  /**
   Scrapping a whole output undoes it lot by lot, and succeeds exactly when no
   lot was short before.
   */
  lemma {:induction false} ScrapUndoes(moves: seq<Move>, output: seq<Move>, product: int)
    requires Separate(output) && forall m | m in output :: m.product == product
    ensures Scrapped(moves, output).Some? <==> forall m | m in output :: OnHand(moves, product, m.lot) >= m.quantity
    ensures Scrapped(moves, output).Some? ==>
      forall p :: Stock(Scrapped(moves, output).value, p) == Stock(moves, p) - Stock(output, p)
    ensures Scrapped(moves, output).Some? ==>
      forall p, lot :: OnHand(Scrapped(moves, output).value, p, lot) == OnHand(moves, p, lot) - OnHand(output, p, lot)
    decreases |output|
  {
    if output != [] {
      var m, rest, next := output[0], output[1..], moves + [Back(output[0])];
      assert output == [m] + rest && m in output;
      forall p, lot ensures OnHand(next, p, lot) == OnHand(moves, p, lot) - if m.product == p && m.lot == lot
          then m.quantity else 0.0 {
        OnHandOfConcat(moves, [Back(m)], p, lot);
        assert [Back(m)][1..] == [];
      }
      forall p ensures Stock(next, p) == Stock(moves, p) - if m.product == p then m.quantity else 0.0 {
        StockOfConcat(moves, [Back(m)], p);
        assert [Back(m)][1..] == [];
      }
      forall x | x in rest ensures x in output && x.lot != m.lot {
        var k :| 0 <= k < |rest| && rest[k] == x;
        assert output[k + 1] == x && output[0].lot != output[k + 1].lot;
      }
      forall i, j | 0 <= i < j < |rest| ensures rest[i].lot != rest[j].lot {
        assert output[i + 1].lot != output[j + 1].lot;
      }
      ScrapUndoes(next, rest, product);
    }
  }

  // ------------------------------------------------------------ what one confirmation does

  /** Lot numbers come from a sequence, so a new lot was never moved. */
  ghost predicate LotsBelow(moves: seq<Move>, next: int) {
    forall m | m in moves :: m.lot.Some? ==> m.lot.value < next
  }

  ghost predicate Sound(w: World) {
    Valid(w.shop) && LotsBelow(w.moves, w.nextLot)
  }

  /** An untracked product already short on hand cannot be scrapped. */
  predicate Scrappable(moves: seq<Move>, h: Sheet) {
    h.tracking == Untracked ==> OnHand(moves, h.product, None) >= 0.0
  }

  lemma OutputIsFresh(moves: seq<Move>, h: Sheet, q: Amount, first: int)
    requires LotsBelow(moves, first)
    ensures var output := Output(h.product, h.tracking, q, first);
      && (forall m | m in output :: m.product == h.product && m.quantity > 0.0)
      && (forall m | m in output ::
         OnHand(moves, h.product, m.lot) == if h.tracking == Untracked then OnHand(moves, h.product, None) else 0.0)
      && LotsBelow(moves + output, first + LotCount(h.tracking, q))
  {
    var output := Output(h.product, h.tracking, q, first);
    forall m | m in output && h.tracking != Untracked ensures OnHand(moves, h.product, m.lot) == 0.0 {
      NoneOnHand(moves, h.product, m.lot);
    }
  }

  lemma {:induction false} OwnLot(output: seq<Move>, i: nat, product: int)
    requires Separate(output) && i < |output| && forall m | m in output :: m.product == product
    ensures OnHand(output, product, output[i].lot) == output[i].quantity
  {
    assert output[0] in output;
    forall j, k | 0 <= j < k < |output[1..]| ensures output[1..][j].lot != output[1..][k].lot {
      assert output[j + 1].lot != output[k + 1].lot;
    }
    forall m | m in output[1..] ensures m in output {}
    if i == 0 {
      forall m | m in output[1..] ensures m.lot != output[0].lot {
        var k :| 0 <= k < |output[1..]| && output[1..][k] == m;
        assert output[k + 1] == m;
      }
      NoneOnHand(output[1..], product, output[0].lot);
    } else {
      OwnLot(output[1..], i - 1, product);
    }
  }

  lemma TotalLossScraps(moves: seq<Move>, h: Sheet, q: Amount, first: int)
    requires LotsBelow(moves, first) && Lottable(h.tracking, q)
    ensures var output := Output(h.product, h.tracking, q, first); var r := Scrapped(moves + output, output);
      && (r.Some? <==> Scrappable(moves, h) || q == 0.0)
      && (r.Some? ==> forall p :: Stock(r.value, p) == Stock(moves, p))
      && (r.Some? ==> forall p, lot :: OnHand(r.value, p, lot) == OnHand(moves, p, lot))
  {
    var output := Output(h.product, h.tracking, q, first);
    hide Scrapped, Output, OnHand, Stock;
    OutputIsFresh(moves, h, q, first);
    OutputAddsUp(h.product, h.tracking, q, first, h.product);
    ScrapUndoes(moves + output, output, h.product);
    forall p ensures Stock(moves + output, p) == Stock(moves, p) + Stock(output, p) {
      StockOfConcat(moves, output, p);
    }
    forall p, lot ensures OnHand(moves + output, p, lot) == OnHand(moves, p, lot) + OnHand(output, p, lot) {
      OnHandOfConcat(moves, output, p, lot);
    }
    forall m | m in output ensures OnHand(moves + output, h.product, m.lot) >= m.quantity <==> Scrappable(moves, h) {
      var i :| 0 <= i < |output| && output[i] == m;
      OwnLot(output, i, h.product);
    }
    assert q != 0.0 ==> output != [] by {
      NoOutputOnlyForNothing(h, q, first);
    }
    assert q != 0.0 ==> output[0] in output;
    assert q == 0.0 ==> output == [] by {
      NoOutputOnlyForNothing(h, q, first);
    }
  }

  lemma NoOutputOnlyForNothing(h: Sheet, q: Amount, first: int)
    requires Lottable(h.tracking, q)
    ensures Output(h.product, h.tracking, q, first) == [] <==> q == 0.0
  {
  }

  lemma {:induction false} ScrapKeepsLots(moves: seq<Move>, output: seq<Move>, next: int)
    requires LotsBelow(moves, next) && LotsBelow(output, next) && Scrapped(moves, output).Some?
    ensures LotsBelow(Scrapped(moves, output).value, next)
    decreases |output|
  {
    if output != [] {
      assert output[0] in output;
      forall m | m in output[1..] ensures m in output {}
      ScrapKeepsLots(moves + [Back(output[0])], output[1..], next);
    }
  }

  lemma StockAfterExactly(moves: seq<Move>, h: Sheet, quantity: Amount, first: int)
    requires LotsBelow(moves, first) && h.accepted + h.loss == quantity && quantity > 0.0
    ensures var q, r := if h.accepted != 0.0 then h.accepted else quantity, StockAfter(moves, h, quantity, first);
      && (r.Some? <==> Lottable(h.tracking, q) && (h.accepted == 0.0 ==> Scrappable(moves, h)))
      && (r.Some? ==> forall p :: Stock(r.value, p) == Stock(moves, p) + if p == h.product then h.accepted else 0.0)
      && (r.Some? ==> LotsBelow(r.value, first + LotCount(h.tracking, q)))
  {
    hide Scrapped, Output, OnHand, Stock;
    var q := if h.accepted != 0.0 then h.accepted else quantity;
    var output := Output(h.product, h.tracking, q, first);
    OutputIsFresh(moves, h, q, first);
    if Lottable(h.tracking, q) {
      if h.accepted != 0.0 {
        forall p ensures Stock(moves + output, p) == Stock(moves, p) + if p == h.product then h.accepted else 0.0 {
          StockOfConcat(moves, output, p);
          OutputAddsUp(h.product, h.tracking, q, first, p);
        }
      } else {
        TotalLossScraps(moves, h, q, first);
        if Scrapped(moves + output, output).Some? {
          forall m | m in output ensures m in moves + output {}
          ScrapKeepsLots(moves + output, output, first + LotCount(h.tracking, q));
        }
      }
    }
  }

  lemma ClearingIsAccepted(s: Shop, order: int)
    requires Valid(s)
    ensures AfterWrite(s, CurrentRows(s.contents, order), REMOVAL) == Some(Cleared(s, order))
      && Valid(Cleared(s, order))
    ensures Cleared(s, order).orders == s.orders && Total(Cleared(s, order).contents, order) == 0.0
    ensures forall o | o != order :: Total(Cleared(s, order).contents, o) == Total(s.contents, o)
  {
    hide RowOk;
    var t := Cleared(s, order);
    forall o ensures Total(t.contents, o) == if o == order then 0.0 else Total(s.contents, o) {
      ClearedTotal(s.contents, t.contents, order, o);
    }
    RowsArePositive(s);
    forall o | o in t.orders ensures Within(t, o) {
      assert Within(s, o);
      if o == order {
        NonNegative(s.contents, o);
      }
    }
    forall i | 0 <= i < |t.contents| && t.contents[i].state != Deleted ensures RowOk(t, t.contents[i]) {
      RowInSameShop(s, t, s.contents[i]);
      RemovedRowOk(t, s.contents[i]);
    }
    WriteRefusedExactly(s, CurrentRows(s.contents, order), REMOVAL);
  }

  lemma RemovedRowOk(s: Shop, c: Content)
    requires RowOk(s, c)
    ensures RowOk(s, c.(state := Removed))
  {
  }

  lemma {:induction false} NonNegative(a: seq<Content>, order: int)
    requires forall i | 0 <= i < |a| && a[i].state != Deleted :: a[i].quantity > 0.0
    ensures Total(a, order) >= 0.0
  {
    if a != [] {
      NonNegative(a[1..], order);
    }
  }

  lemma {:induction false} ClearedTotal(a: seq<Content>, b: seq<Content>, order: int, o: int)
    requires |a| == |b|
    requires forall i | 0 <= i < |a| ::
      b[i] == if a[i].state == Current && a[i].order == order then a[i].(state := Removed) else a[i]
    ensures Total(b, o) == if o == order then 0.0 else Total(a, o)
  {
    if a != [] {
      ClearedTotal(a[1..], b[1..], order, o);
    }
  }

  /** No fraction of a piece. */
  ghost predicate Whole(q: real) {
    q == q.Floor as real
  }

  lemma MayConfirmIs(w: World, h: Sheet)
    ensures MayConfirm(w, h) <==>
      && h.order in w.shop.orders && h.order !in w.closed
      && h.accepted + h.loss == w.shop.orders[h.order].quantity
      && (exists s :: s in h.stages && s.firing)
      && (forall s | s in h.stages :: s.finished && (s.firing ==> s.unloaded))
      && (h.loss != 0.0 ==> h.reason != "")
      && (forall m | m in h.materials ::
         Reserved(m.lines) == m.demand && (m.tracked ==> forall l | l in m.lines :: l.quantity == 0.0 || l.hasLot))
    ensures forall q :: Lottable(BySerial, q) <==> Whole(q)
  {
  }

  /**
   A sound confirmation succeeds exactly when the entries balance and the
   order is ready, and then stock gains the accepted quantity, whether pieces
   were lost in part or in whole, losses gain the lost one, and the order
   leaves its boards.
   */
  lemma ConfirmBalances(w: World, h: Sheet)
    requires Sound(w) && (h.order in w.shop.orders ==> w.shop.orders[h.order].quantity > 0.0)
    ensures var r := Confirm(w, h);
      && (r.Some? <==>
            && h.order in w.shop.orders && h.order !in w.closed
            && h.accepted + h.loss == w.shop.orders[h.order].quantity
            && (exists s :: s in h.stages && s.firing)
            && (forall s | s in h.stages :: s.finished && (s.firing ==> s.unloaded))
            && (h.loss != 0.0 ==> h.reason != "")
            && (forall m | m in h.materials ::
               && Reserved(m.lines) == m.demand
               && (m.tracked ==> forall l | l in m.lines :: l.quantity == 0.0 || l.hasLot))
            && (h.tracking == BySerial ==> Whole(if h.accepted != 0.0 then h.accepted else h.loss))
            && h.completes
            && (h.accepted == 0.0 && h.tracking == Untracked ==> OnHand(w.moves, h.product, None) >= 0.0))
      && (r.Some? ==>
            && h.accepted + h.loss == w.shop.orders[h.order].quantity
            && r.value.closed == w.closed + {h.order} && h.order !in w.closed
            && Total(r.value.shop.contents, h.order) == 0.0
            && r.value.shop.orders == w.shop.orders
            && (forall o | o != h.order :: Total(r.value.shop.contents, o) == Total(w.shop.contents, o))
            && Sound(r.value))
      && (r.Some? ==> forall p ::
            && Stock(r.value.moves, p) == Stock(w.moves, p) + (if p == h.product then h.accepted else 0.0)
            && Lost(r.value.losses, p) == Lost(w.losses, p) + (if p == h.product then h.loss else 0.0))
  {
    MayConfirmIs(w, h);
    hide Stock, Lost, MayConfirm, StockAfter, Total, Valid, AfterWrite, Cleared, CurrentRows, OnHand;
    ClearingIsAccepted(w.shop, h.order);
    if MayConfirm(w, h) && h.completes {
      StockAfterExactly(w.moves, h, w.shop.orders[h.order].quantity, w.nextLot);
      LossRecorded(w.losses, h);
    }
  }

  lemma LossRecorded(losses: seq<Loss>, h: Sheet)
    ensures forall p :: Lost(losses + Recorded(h), p) == Lost(losses, p) + (if p == h.product then h.loss else 0.0)
  {
    var more := Recorded(h);
    forall p ensures Lost(losses + more, p) == Lost(losses, p) + if p == h.product then h.loss else 0.0 {
      LostOfConcat(losses, more, p);
      assert more != [] ==> more[1..] == [];
    }
  }

  // ------------------------------------------------------------ over every run

  datatype Command = Inspect(sheet: Sheet) | OnBoards(command: Boards.Command)

  /** An operation that raises changes nothing. */
  function Apply(w: World, c: Command): World {
    match c
    case Inspect(h) => Confirm(w, h).GetOr(w)
    case OnBoards(b) => w.(shop := Boards.Apply(w.shop, b).GetOr(w.shop))
  }

  function Run(w: World, cs: seq<Command>): World
    decreases |cs|
  {
    if cs == [] then w else Run(Apply(w, cs[0]), cs[1..])
  }

  /** The quantities of the orders inspected along the run. */
  function Inspected(w: World, cs: seq<Command>, product: int): real
    decreases |cs|
  {
    if cs == [] then 0.0
    else
      (match cs[0]
       case Inspect(h) =>
         if Confirm(w, h).Some? && h.product == product then w.shop.orders[h.order].quantity else 0.0
       case OnBoards(_) => 0.0)
      + Inspected(Apply(w, cs[0]), cs[1..], product)
  }

  /** How often an order's confirmation succeeded along the run. */
  function Confirmations(w: World, cs: seq<Command>, order: int): nat
    decreases |cs|
  {
    if cs == [] then 0
    else
      (if cs[0].Inspect? && cs[0].sheet.order == order && Confirm(w, cs[0].sheet).Some? then 1 else 0)
      + Confirmations(Apply(w, cs[0]), cs[1..], order)
  }

  ghost predicate Positive(s: Shop) {
    forall o | o in s.orders :: s.orders[o].quantity > 0.0
  }

  lemma BoardsKeepPositive(s: Shop, c: Boards.Command)
    requires Valid(s) && Positive(s)
    ensures Positive(Boards.Apply(s, c).GetOr(s))
  {
    hide Filled, Changed, FirstFor, OperationOf, Total;
    if c.Split? && Fresh(s, c.deferral) && Boards.Apply(s, c).Some? {
      assert RowOk(s, s.contents[c.row]);
    }
  }

  lemma ApplyKeepsSound(w: World, c: Command)
    requires Sound(w) && Positive(w.shop)
    ensures Sound(Apply(w, c)) && Positive(Apply(w, c).shop)
  {
    match c {
      case Inspect(h) =>
        hide Confirm, Valid, LotsBelow;
        ConfirmBalances(w, h);
      case OnBoards(b) =>
        hide Valid, LotsBelow, Positive, Boards.Apply;
        ApplyKeepsValid(w.shop, b);
        BoardsKeepPositive(w.shop, b);
    }
  }

  /** Over any run of inspections and board moves, stock and losses together gain exactly what was inspected. */
  lemma {:induction false} RunBalances(w: World, cs: seq<Command>, product: int)
    requires Sound(w) && Positive(w.shop)
    ensures Stock(Run(w, cs).moves, product) + Lost(Run(w, cs).losses, product)
      == Stock(w.moves, product) + Lost(w.losses, product) + Inspected(w, cs, product)
    ensures Sound(Run(w, cs))
    decreases |cs|
  {
    hide Confirm, Sound, Positive, Stock, Lost, Boards.Apply;
    if cs != [] {
      ApplyKeepsSound(w, cs[0]);
      StepBalances(w, cs[0], product);
      RunBalances(Apply(w, cs[0]), cs[1..], product);
    }
  }

  lemma StepBalances(w: World, c: Command, product: int)
    requires Sound(w) && Positive(w.shop)
    ensures Stock(Apply(w, c).moves, product) + Lost(Apply(w, c).losses, product)
      == Stock(w.moves, product) + Lost(w.losses, product)
         + match c
           case Inspect(h) => if Confirm(w, h).Some? && h.product == product then w.shop.orders[h.order].quantity
               else 0.0
           case OnBoards(_) => 0.0
  {
    hide Confirm, Stock, Lost, Boards.Apply;
    if c.Inspect? {
      ConfirmBalances(w, c.sheet);
    }
  }

  /** No order is ever inspected twice. */
  lemma {:induction false} InspectedAtMostOnce(w: World, cs: seq<Command>, order: int)
    ensures Confirmations(w, cs, order) <= if order in w.closed then 0 else 1
    decreases |cs|
  {
    hide StockAfter, Ready, Exact, AfterWrite, Boards.Apply;
    if cs != [] {
      InspectedAtMostOnce(Apply(w, cs[0]), cs[1..], order);
    }
  }

  // ------------------------------------------------------------ the wizard's steps

  class Wizard {
    var world: World

    method PrepareExactMaterialConsumption(materials: seq<Material>) returns (ok: bool)
      ensures ok == forall m | m in materials :: Exact(m)
    {
      for i := 0 to |materials|
        invariant forall j | 0 <= j < i :: Exact(materials[j])
      {
        var quantity, unnamed := 0.0, false;
        for k := 0 to |materials[i].lines|
          invariant quantity == Reserved(materials[i].lines[..k])
          invariant unnamed <==> exists l :: l in materials[i].lines[..k] && l.quantity != 0.0 && !l.hasLot
        {
          var line := materials[i].lines[k];
          ReservedGrows(materials[i].lines, k);
          quantity := quantity + line.quantity;
          unnamed := unnamed || (line.quantity != 0.0 && !line.hasLot);
        }
        assert materials[i].lines[..|materials[i].lines|] == materials[i].lines;
        if quantity != materials[i].demand || (materials[i].tracked && unnamed) {
          assert !Exact(materials[i]);
          return false;
        }
      }
      ok := true;
    }

    /** Scraps each lot of a failed output; false when Odoo finds one missing. */
    method ScrapAll(moves: seq<Move>, output: seq<Move>) returns (r: Option<seq<Move>>)
      ensures r == Scrapped(moves, output)
    {
      var now := moves;
      for i := 0 to |output|
        invariant Scrapped(moves, output) == Scrapped(now, output[i..])
      {
        assert output[i..][0] == output[i] && output[i..][1..] == output[i + 1..];
        if OnHand(now, output[i].product, output[i].lot) < output[i].quantity {
          return None;
        }
        now := now + [Back(output[i])];
      }
      r := Some(now);
    }

    method ActionConfirm(h: Sheet) returns (r: Outcome)
      modifies this
      ensures Confirm(old(world), h) == if r == Done then Some(world) else None
      ensures r == Refused ==> world == old(world)
    {
      hide Exact, Scrapped, AfterWrite, Cleared, Output;
      if h.order !in world.shop.orders || h.order in world.closed
         || h.accepted + h.loss != world.shop.orders[h.order].quantity {
        return Refused;
      }
      if !(exists s :: s in h.stages && s.firing) || exists s :: s in h.stages && s.firing && !s.unloaded {
        return Refused;
      }
      if (exists s :: s in h.stages && !s.finished) || (h.loss != 0.0 && h.reason == "") {
        return Refused;
      }
      var exact := PrepareExactMaterialConsumption(h.materials);
      var quantity := world.shop.orders[h.order].quantity;
      var produced := if h.accepted != 0.0 then h.accepted else quantity;
      if !exact || !Lottable(h.tracking, produced) || !h.completes {
        return Refused;
      }
      var losses := world.losses;
      if h.loss != 0.0 {
        losses := losses + [Loss(h.order, h.product, h.loss, h.operation, h.reason)];
      }
      var output := Output(h.product, h.tracking, produced, world.nextLot);
      var moves := world.moves + output;
      if h.accepted == 0.0 {
        var scrapped := ScrapAll(moves, output);
        if scrapped.None? {
          return Refused;
        }
        moves := scrapped.value;
      }
      var rows := CurrentRows(world.shop.contents, h.order);
      if AfterWrite(world.shop, rows, REMOVAL).None? {
        return Refused;
      }
      assert losses == world.losses + Recorded(h);
      world := World(Cleared(world.shop, h.order), world.closed + {h.order}, moves, losses, world.nextLot
          + LotCount(h.tracking, produced));
      r := Done;
    }
  }

  lemma {:induction false} ReservedGrows(lines: seq<Line>, k: nat)
    requires k < |lines|
    ensures Reserved(lines[..k + 1]) == Reserved(lines[..k]) + lines[k].quantity
    ensures lines[..k + 1] == lines[..k] + [lines[k]]
  {
    if k > 0 {
      ReservedGrows(lines[1..], k - 1);
      assert lines[..k + 1][1..] == lines[1..][..k] && lines[..k][1..] == lines[1..][..k - 1];
    }
  }
}
