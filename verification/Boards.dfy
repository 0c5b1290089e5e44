/**
 Ware boards: which quantity of which manufacturing order stands on which
 board, and the check that keeps an order's boards within its quantity.
 Quantities are exact and in one unit; a row is named by its position.
 */
module Boards {
  import opened Common

  datatype RowState = Current | Removed | Deleted

  datatype Content = Content(
    board: int, order: int, quantity: real, operation: Option<int>, state: RowState, previous: Option<nat>)

  datatype Board = Board(reusable: bool, company: Option<int>)

  datatype WorkOrder = WorkOrder(id: int, operation: Option<int>, open: bool)

  datatype Order = Order(quantity: real, company: int, workOrders: seq<WorkOrder>)

  datatype Shop = Shop(boards: map<int, Board>, orders: map<int, Order>, contents: seq<Content>)

  /** What the current rows of an order add up to. */
  function Total(contents: seq<Content>, order: int): real {
    if contents == [] then 0.0
    else
      (if contents[0].state == Current && contents[0].order == order then contents[0].quantity else 0.0)
      + Total(contents[1..], order)
  }

  /** Everything the row check asks apart from the total. */
  predicate RowOk(s: Shop, c: Content) {
    && c.state != Deleted && c.quantity > 0.0 && c.order in s.orders && c.board in s.boards
       && s.boards[c.board].reusable
    && (s.boards[c.board].company.Some? ==> s.boards[c.board].company.value == s.orders[c.order].company)
    && (c.operation.Some? ==> exists w :: w in s.orders[c.order].workOrders && w.id == c.operation.value)
  }

  predicate Accepts(s: Shop, i: nat)
    requires i < |s.contents|
  {
    RowOk(s, s.contents[i]) && Total(s.contents, s.contents[i].order) <= s.orders[s.contents[i].order].quantity
  }

  /** The first work order still to do. */
  function FirstOpen(ws: seq<WorkOrder>): Option<int> {
    if ws == [] then None else if ws[0].open then Some(ws[0].id) else FirstOpen(ws[1..])
  }

  /** The first work order of the given operation. */
  function FirstFor(ws: seq<WorkOrder>, operation: Option<int>): Option<int> {
    if ws == [] then None else if ws[0].operation == operation then Some(ws[0].id) else FirstFor(ws[1..], operation)
  }

  function OperationOf(ws: seq<WorkOrder>, id: Option<int>): Option<int> {
    if ws == [] then None else if Some(ws[0].id) == id then ws[0].operation else OperationOf(ws[1..], id)
  }

  /** A new row starts at the order's first open operation unless it names one. */
  function Filled(s: Shop, c: Content): Content {
    if c.operation.None? && c.order in s.orders then c.(operation := FirstOpen(s.orders[c.order].workOrders)) else c
  }

  function FilledAll(s: Shop, rows: seq<Content>): (r: seq<Content>)
    ensures |r| == |rows| && forall i | 0 <= i < |r| :: r[i] == Filled(s, rows[i])
  {
    seq(|rows|, i requires 0 <= i < |rows| => Filled(s, rows[i]))
  }

  /** The columns a write may name; None leaves a column alone. */
  datatype Change = Change(
    board: Option<int>, order: Option<int>, quantity: Option<real>, operation: Option<Option<int>>,
        state: Option<RowState>)

  function Changed(c: Content, v: Change): Content {
    c.(board := v.board.GetOr(c.board), order := v.order.GetOr(c.order), quantity := v.quantity.GetOr(c.quantity),
       operation := v.operation.GetOr(c.operation), state := v.state.GetOr(c.state))
  }

  function ChangedAt(contents: seq<Content>, ids: set<nat>, v: Change): (r: seq<Content>)
    ensures |r| == |contents|
    ensures forall i | 0 <= i < |r| :: r[i] == if i in ids then Changed(contents[i], v) else contents[i]
  {
    seq(|contents|, i requires 0 <= i < |contents| => if i in ids then Changed(contents[i], v) else contents[i])
  }

  const REMOVAL := Change(None, None, None, None, Some(Removed))

  // ------------------------------------------------------------ what each operation does, None when it raises

  function AfterCreate(s: Shop, rows: seq<Content>): Option<Shop> {
    var t := s.(contents := s.contents + FilledAll(s, rows));
    if forall i | |s.contents| <= i < |t.contents| :: Accepts(t, i) then Some(t) else None
  }

  function AfterWrite(s: Shop, ids: set<nat>, v: Change): Option<Shop> {
    if exists i :: i in ids && (i >= |s.contents| || s.contents[i].state == Deleted) then None
    else
      var t := s.(contents := ChangedAt(s.contents, ids, v));
      if forall i | 0 <= i < |t.contents| && i in ids :: Accepts(t, i) then Some(t) else None
  }

  function AfterTransfer(s: Shop, i: nat, board: int): Option<Shop> {
    if i >= |s.contents| || s.contents[i].state != Current then None
    else
      var row := s.contents[i];
      var removed := AfterWrite(s, {i}, REMOVAL);
      if removed.None? then None
      else AfterCreate(removed.value, [Content(board, row.order, row.quantity, row.operation, Current, Some(i))])
  }

  /** What Odoo makes of a split: the identifier and the work orders of the new order. */
  datatype Deferral = Deferral(order: int, workOrders: seq<WorkOrder>)

  /** The shop while the split runs: the orders are divided, the row has not moved yet. */
  function Divided(s: Shop, row: Content, d: Deferral): Shop
    requires row.order in s.orders
  {
    var order := s.orders[row.order];
    s.(orders := s.orders[row.order := order.(quantity := order.quantity - row.quantity)]
                         [d.order := Order(row.quantity, order.company, d.workOrders)])
  }

  function AfterSplit(s: Shop, i: nat, deferral: Option<Deferral>): Option<Shop> {
    if i >= |s.contents| || s.contents[i].state != Current then None
    else
      var row := s.contents[i];
      if row.order !in s.orders || s.orders[row.order].quantity - row.quantity <= 0.0 || deferral.None? then None
      else
        var d := deferral.value;
        var operation := FirstFor(d.workOrders, OperationOf(s.orders[row.order].workOrders, row.operation));
        AfterWrite(Divided(s, row, d), {i}, Change(None, Some(d.order), None, Some(operation), None))
  }

  /** Rows another row points back to cannot be deleted. */
  function AfterDelete(s: Shop, i: nat): Option<Shop> {
    if i >= |s.contents| || s.contents[i].state == Deleted || exists c ::
        c in s.contents && c.state != Deleted && c.previous == Some(i) then None
    else Some(s.(contents := s.contents[i := s.contents[i].(state := Deleted)]))
  }

  // ------------------------------------------------------------ totals under the basic edits

  lemma {:induction false} TotalOfConcat(a: seq<Content>, b: seq<Content>, order: int)
    ensures Total(a + b, order) == Total(a, order) + Total(b, order)
  {
    if a == [] {
      assert a + b == b;
    } else {
      assert (a + b)[1..] == a[1..] + b;
      TotalOfConcat(a[1..], b, order);
    }
  }

  function Share(c: Content, order: int): real {
    if c.state == Current && c.order == order then c.quantity else 0.0
  }

  lemma {:induction false} TotalOfUpdate(a: seq<Content>, i: nat, c: Content, order: int)
    requires i < |a|
    ensures Total(a[i := c], order) == Total(a, order) - Share(a[i], order) + Share(c, order)
  {
    if i == 0 {
      assert a[i := c][1..] == a[1..];
    } else {
      assert a[i := c][1..] == a[1..][i - 1 := c];
      TotalOfUpdate(a[1..], i - 1, c, order);
    }
  }

  lemma {:induction false} TotalOfLess(a: seq<Content>, b: seq<Content>, order: int)
    requires |a| == |b| && forall i | 0 <= i < |a| :: Share(a[i], order) <= Share(b[i], order)
    ensures Total(a, order) <= Total(b, order)
  {
    if a != [] {
      assert Share(a[0], order) <= Share(b[0], order);
      forall i | 0 <= i < |a[1..]| ensures Share(a[1..][i], order) <= Share(b[1..][i], order) {
        assert Share(a[i + 1], order) <= Share(b[i + 1], order);
      }
      TotalOfLess(a[1..], b[1..], order);
    }
  }

  // ------------------------------------------------------------ boards never hold more than the order

  predicate Within(s: Shop, order: int)
    requires order in s.orders
  {
    Total(s.contents, order) <= s.orders[order].quantity
  }

  ghost predicate Valid(s: Shop) {
    && (forall order | order in s.orders :: Within(s, order))
    && (forall i | 0 <= i < |s.contents| && s.contents[i].state != Deleted :: RowOk(s, s.contents[i]))
  }

  lemma FilledOk(s: Shop, c: Content)
    requires RowOk(s, c)
    ensures RowOk(s, Filled(s, c))
  {
    if c.operation.None? {
      FirstOpenBelongs(s.orders[c.order].workOrders);
    }
  }

  lemma {:induction false} FirstOpenBelongs(ws: seq<WorkOrder>)
    ensures FirstOpen(ws).Some? ==> exists w :: w in ws && w.id == FirstOpen(ws).value
  {
    if ws != [] && !ws[0].open {
      FirstOpenBelongs(ws[1..]);
    } else if ws != [] {
      assert ws[0] in ws;
    }
  }

  lemma {:induction false} FirstForBelongs(ws: seq<WorkOrder>, operation: Option<int>)
    ensures FirstFor(ws, operation).Some? ==> exists w :: w in ws && w.id == FirstFor(ws, operation).value
  {
    if ws != [] && ws[0].operation != operation {
      FirstForBelongs(ws[1..], operation);
    } else if ws != [] {
      assert ws[0] in ws;
    }
  }

  /** An order none of whose rows were added keeps its total; the others were checked. */
  lemma CreateKeepsValid(s: Shop, rows: seq<Content>)
    requires Valid(s) && AfterCreate(s, rows).Some?
    ensures Valid(AfterCreate(s, rows).value)
  {
    hide RowOk, Filled;
    var t := AfterCreate(s, rows).value;
    forall order | order in t.orders ensures Within(t, order) {
      if i :| |s.contents| <= i < |t.contents| && t.contents[i].order == order {
        assert Accepts(t, i);
      } else {
        var added := FilledAll(s, rows);
        TotalOfConcat(s.contents, added, order);
        forall i | 0 <= i < |added| ensures added[i].order != order {
          assert t.contents[|s.contents| + i] == added[i];
        }
        NoShare(added, order);
        assert Within(s, order);
      }
    }
    forall i | 0 <= i < |t.contents| && t.contents[i].state != Deleted ensures RowOk(t, t.contents[i]) {
      if i < |s.contents| {
        RowInSameShop(s, t, s.contents[i]);
      } else {
        assert Accepts(t, i);
      }
    }
  }

  lemma RowInSameShop(s: Shop, t: Shop, c: Content)
    requires RowOk(s, c) && s.boards == t.boards && (c.order in s.orders ==> c.order in t.orders)
    requires c.order in s.orders ==> s.orders[c.order].company == t.orders[c.order].company
    requires c.order in s.orders ==> s.orders[c.order].workOrders == t.orders[c.order].workOrders
    ensures RowOk(t, c)
  {
  }

  lemma {:induction false} NoShare(a: seq<Content>, order: int)
    requires forall i | 0 <= i < |a| :: a[i].order != order
    ensures Total(a, order) == 0.0
  {
    if a != [] {
      NoShare(a[1..], order);
    }
  }

  /** Rows may be valid before the write only apart from the totals of orders they leave. */
  lemma WriteKeepsValid(s: Shop, ids: set<nat>, v: Change)
    requires AfterWrite(s, ids, v).Some?
    requires forall i | 0 <= i < |s.contents| && s.contents[i].state != Deleted :: RowOk(s, s.contents[i])
    requires forall order | order in s.orders ::
      Within(s, order) || Within(AfterWrite(s, ids, v).value, order)
    ensures Valid(AfterWrite(s, ids, v).value)
  {
    hide RowOk, Changed;
    var t := AfterWrite(s, ids, v).value;
    forall order | order in t.orders ensures Within(t, order) {
      if i :| 0 <= i < |t.contents| && i in ids && t.contents[i].order == order {
        assert Accepts(t, i);
      } else if Within(s, order) {
        forall i | 0 <= i < |t.contents| && i in ids ensures t.contents[i].order != order {}
        RowsArePositive(s);
        LeavingOnlyLowers(s.contents, t.contents, ids, order);
      }
    }
    forall i | 0 <= i < |t.contents| && t.contents[i].state != Deleted ensures RowOk(t, t.contents[i]) {
      if i in ids {
        assert Accepts(t, i);
      } else {
        RowInSameShop(s, t, s.contents[i]);
      }
    }
  }

  lemma RowsArePositive(s: Shop)
    requires forall i | 0 <= i < |s.contents| && s.contents[i].state != Deleted :: RowOk(s, s.contents[i])
    ensures forall i | 0 <= i < |s.contents| && s.contents[i].state != Deleted :: s.contents[i].quantity > 0.0
  {
  }

  /** Quantities are positive in every live row, so rows that leave an order lower its total. */
  lemma LeavingOnlyLowers(a: seq<Content>, b: seq<Content>, ids: set<nat>, order: int)
    requires |a| == |b| && forall i | 0 <= i < |a| && i !in ids :: a[i] == b[i]
    requires forall i | 0 <= i < |a| && i in ids :: b[i].order != order
    requires forall i | 0 <= i < |a| && a[i].state != Deleted :: a[i].quantity > 0.0
    ensures Total(b, order) <= Total(a, order)
  {
    forall i | 0 <= i < |a| ensures Share(b[i], order) <= Share(a[i], order) {}
    TotalOfLess(b, a, order);
  }

  lemma DeleteKeepsValid(s: Shop, i: nat)
    requires Valid(s) && AfterDelete(s, i).Some?
    ensures Valid(AfterDelete(s, i).value)
  {
    hide RowOk;
    var t := AfterDelete(s, i).value;
    RowsArePositive(s);
    forall order | order in t.orders ensures Within(t, order) {
      TotalOfUpdate(s.contents, i, t.contents[i], order);
      assert Within(s, order);
    }
    forall j | 0 <= j < |t.contents| && t.contents[j].state != Deleted ensures RowOk(t, t.contents[j]) {
      RowInSameShop(s, t, s.contents[j]);
    }
  }

  // ------------------------------------------------------------ transfer

  /** Standing on the new board, the row asks what the old one asked. */
  predicate BoardFits(s: Shop, board: int, order: int)
    requires order in s.orders
  {
    board in s.boards && s.boards[board].reusable
    && (s.boards[board].company.Some? ==> s.boards[board].company.value == s.orders[order].company)
  }

  function Replacement(s: Shop, i: nat, board: int): Content
    requires i < |s.contents|
  {
    Filled(s, Content(board, s.contents[i].order, s.contents[i].quantity, s.contents[i].operation, Current, Some(i)))
  }

  lemma RemovalIsAccepted(s: Shop, i: nat)
    requires Valid(s) && i < |s.contents| && s.contents[i].state == Current
    ensures AfterWrite(s, {i}, REMOVAL) == Some(s.(contents := s.contents[i := s.contents[i].(state := Removed)]))
  {
    var t := s.(contents := s.contents[i := s.contents[i].(state := Removed)]);
    assert ChangedAt(s.contents, {i}, REMOVAL) == t.contents;
    assert RowOk(s, s.contents[i]);
    assert Within(s, s.contents[i].order);
    TotalOfUpdate(s.contents, i, t.contents[i], s.contents[i].order);
    assert Accepts(t, i);
  }

  /**
   A transfer is never refused for quantity: it succeeds exactly for a current
   row and a reusable board of the order's company. The old row is then
   removed, the same ware stands on the new board, and every order keeps its total.
   */
  lemma TransferConserves(s: Shop, i: nat, board: int)
    requires Valid(s)
    ensures var r := AfterTransfer(s, i, board);
      && (r.Some? <==> i < |s.contents| && s.contents[i].state == Current && BoardFits(s, board, s.contents[i].order))
      && (r.Some? ==>
            r.value == s.(contents := s.contents[i := s.contents[i].(state := Removed)] + [Replacement(s, i, board)]))
      && (r.Some? ==> forall order :: Total(r.value.contents, order) == Total(s.contents, order))
      && (r.Some? ==> Valid(r.value))
  {
    if i < |s.contents| && s.contents[i].state == Current {
      RemovalIsAccepted(s, i);
      TransferTotals(s, i, board);
      TransferCheck(s, i, board);
      var removed := AfterWrite(s, {i}, REMOVAL).value;
      if AfterTransfer(s, i, board).Some? {
        WriteKeepsValid(s, {i}, REMOVAL);
        CreateKeepsValid(removed,
            [Content(board, s.contents[i].order, s.contents[i].quantity, s.contents[i].operation, Current, Some(i))]);
      }
    }
  }

  lemma TransferTotals(s: Shop, i: nat, board: int)
    requires i < |s.contents| && s.contents[i].state == Current
    ensures forall order ::
      Total(s.contents[i := s.contents[i].(state := Removed)] + [Replacement(s, i, board)], order)
          == Total(s.contents, order)
  {
    forall order ensures
      Total(s.contents[i := s.contents[i].(state := Removed)] + [Replacement(s, i, board)], order)
          == Total(s.contents, order) {
      TotalOfUpdate(s.contents, i, s.contents[i].(state := Removed), order);
      TotalOfConcat(s.contents[i := s.contents[i].(state := Removed)], [Replacement(s, i, board)], order);
    }
  }

  lemma TransferCheck(s: Shop, i: nat, board: int)
    requires Valid(s) && i < |s.contents| && s.contents[i].state == Current
    ensures var removed := s.(contents := s.contents[i := s.contents[i].(state := Removed)]);
      AfterCreate(removed,
          [Content(board, s.contents[i].order, s.contents[i].quantity, s.contents[i].operation, Current, Some(i))])
      == if BoardFits(s, board, s.contents[i].order)
          then Some(removed.(contents := removed.contents + [Replacement(s, i, board)])) else None
  {
    hide Filled;
    var row := Content(board, s.contents[i].order, s.contents[i].quantity, s.contents[i].operation, Current, Some(i));
    var removed := s.(contents := s.contents[i := s.contents[i].(state := Removed)]);
    assert Filled(removed, row) == Replacement(s, i, board) by {
      SameFilled(s, removed, row);
    }
    assert FilledAll(removed, [row]) == [Replacement(s, i, board)];
    var t := removed.(contents := removed.contents + [Replacement(s, i, board)]);
    TransferTotals(s, i, board);
    ReplacementKeepsRow(s, row);
    assert RowOk(s, s.contents[i]) && Within(s, row.order);
    assert RowOk(t, t.contents[|s.contents|]) <==> BoardFits(s, board, row.order) by {
      SameRowCheck(s, t, t.contents[|s.contents|]);
      if BoardFits(s, board, row.order) {
        FilledOk(s, row);
      }
    }
    assert Accepts(t, |s.contents|) <==> BoardFits(s, board, row.order);
  }

  lemma SameFilled(s: Shop, t: Shop, c: Content)
    requires s.orders == t.orders
    ensures Filled(s, c) == Filled(t, c)
  {
  }

  lemma SameRowCheck(s: Shop, t: Shop, c: Content)
    requires s.orders == t.orders && s.boards == t.boards
    ensures RowOk(s, c) <==> RowOk(t, c)
  {
  }

  lemma ReplacementKeepsRow(s: Shop, c: Content)
    ensures Filled(s, c) == c.(operation := Filled(s, c).operation)
  {
  }

  /** No row that still exists names `i` as the row before it. */
  ghost predicate NothingAfter(contents: seq<Content>, i: nat) {
    forall c | c in contents && c.state != Deleted :: c.previous != Some(i)
  }

  /**
   A transferred row is kept while the row that replaced it exists; once the replacement is
   deleted it can go too, unless another row names it.
   */
  lemma TransferredRowIsKeptExactly(s: Shop, i: nat, board: int)
    requires Valid(s) && AfterTransfer(s, i, board).Some?
    requires NothingAfter(s.contents, |s.contents|)
    ensures var t := AfterTransfer(s, i, board).value;
      && AfterDelete(t, i).None? && AfterDelete(t, |s.contents|).Some?
      && (AfterDelete(AfterDelete(t, |s.contents|).value, i).Some? <==> NothingAfter(s.contents, i))
  {
    hide Filled, Valid;
    TransferConserves(s, i, board);
    var t, n := AfterTransfer(s, i, board).value, |s.contents|;
    ReplacementKeepsRow(s, Content(board, s.contents[i].order, s.contents[i].quantity, s.contents[i].operation,
      Current, Some(i)));
    assert t.contents[n] in t.contents && t.contents[n].previous == Some(i);
    forall c | c in t.contents && c.state != Deleted ensures c.previous != Some(n) {
      var j :| 0 <= j < |t.contents| && t.contents[j] == c;
      assert j < n ==> s.contents[j] in s.contents;
    }
    var u := AfterDelete(t, n).value;
    assert forall j | 0 <= j < n :: u.contents[j] == if j == i then s.contents[i].(state := Removed) else s.contents[j];
    SameNothingAfter(s.contents, u.contents, i);
  }

  lemma SameNothingAfter(a: seq<Content>, b: seq<Content>, i: nat)
    requires |b| == |a| + 1 && b[|a|].state == Deleted
    requires forall j | 0 <= j < |a| ::
      b[j].previous == a[j].previous && (b[j].state == Deleted <==> a[j].state == Deleted)
    ensures NothingAfter(a, i) <==> NothingAfter(b, i)
  {
    if NothingAfter(a, i) {
      forall c | c in b && c.state != Deleted ensures c.previous != Some(i) {
        var j :| 0 <= j < |b| && b[j] == c;
        assert a[j] in a;
      }
    } else {
      var c :| c in a && c.state != Deleted && c.previous == Some(i);
      var j :| 0 <= j < |a| && a[j] == c;
      assert b[j] in b;
    }
  }

  // ------------------------------------------------------------ split for later

  /** Odoo numbers the new order freshly. */
  predicate Fresh(s: Shop, d: Deferral) {
    d.order !in s.orders && forall c | c in s.contents :: c.order != d.order
  }

  function Deferred(s: Shop, i: nat, d: Deferral): Content
    requires i < |s.contents| && s.contents[i].order in s.orders
  {
    var row := s.contents[i];
    row.(order := d.order,
        operation := FirstFor(d.workOrders, OperationOf(s.orders[row.order].workOrders, row.operation)))
  }

  /**
   A split is never refused by the board check: it succeeds exactly for a
   current row that leaves something on the original order. The row then
   fills the new order by itself; quantities on orders and on boards are conserved.
   */
  lemma SplitConserves(s: Shop, i: nat, d: Deferral)
    requires Valid(s) && Fresh(s, d)
    ensures var r := AfterSplit(s, i, Some(d));
      && (r.Some? <==>
            i < |s.contents| && s.contents[i].state == Current
            && s.contents[i].quantity < s.orders[s.contents[i].order].quantity)
      && (r.Some? ==>
            var row, t := s.contents[i], r.value;
            && t.contents == s.contents[i := Deferred(s, i, d)]
            && t.orders.Keys == s.orders.Keys + {d.order}
            && t.orders[row.order].quantity + t.orders[d.order].quantity == s.orders[row.order].quantity
            && Total(t.contents, d.order) == row.quantity == t.orders[d.order].quantity
            && Total(t.contents, row.order) + Total(t.contents, d.order) == Total(s.contents, row.order)
            && (forall o | o in s.orders && o != row.order ::
               t.orders[o] == s.orders[o] && Total(t.contents, o) == Total(s.contents, o))
            && Valid(t))
  {
    if i < |s.contents| && s.contents[i].state == Current
        && s.contents[i].quantity < s.orders[s.contents[i].order].quantity {
      SplitSucceeds(s, i, d);
      SplitTotals(s, i, d);
      SplitKeepsValid(s, i, d);
    }
  }

  /** Position `k` holds the first work order of an operation. */
  ghost predicate FirstOfOperation(ws: seq<WorkOrder>, operation: Option<int>, k: nat) {
    k < |ws| && ws[k].operation == operation && forall j | 0 <= j < k :: ws[j].operation != operation
  }

  lemma {:induction false} FirstForIsFirst(ws: seq<WorkOrder>, operation: Option<int>)
    ensures FirstFor(ws, operation).None? ==> forall w | w in ws :: w.operation != operation
    ensures FirstFor(ws, operation).Some? ==>
      exists k: nat :: FirstOfOperation(ws, operation, k) && ws[k].id == FirstFor(ws, operation).value
  {
    if ws != [] && ws[0].operation != operation {
      FirstForIsFirst(ws[1..], operation);
      if FirstFor(ws, operation).Some? {
        var k: nat :| FirstOfOperation(ws[1..], operation, k) && ws[1..][k].id == FirstFor(ws, operation).value;
        assert FirstOfOperation(ws, operation, k + 1);
      }
    } else if ws != [] {
      assert FirstOfOperation(ws, operation, 0);
    }
  }

  ghost predicate DistinctWork(ws: seq<WorkOrder>) {
    forall v, w | v in ws && w in ws && v.id == w.id :: v == w
  }

  lemma {:induction false} OperationOfIts(ws: seq<WorkOrder>, w: WorkOrder)
    requires DistinctWork(ws) && w in ws
    ensures OperationOf(ws, Some(w.id)) == w.operation
  {
    if ws[0].id == w.id {
      assert ws[0] in ws;
    } else {
      assert DistinctWork(ws[1..]);
      OperationOfIts(ws[1..], w);
    }
  }

  /**
   A row waiting for a work order `w` waits after the split for the new order's first work order
   of the same operation, and for none when the new order has no such work order.
   */
  lemma SplitKeepsOperation(s: Shop, i: nat, d: Deferral, w: WorkOrder)
    requires Valid(s) && Fresh(s, d) && i < |s.contents| && s.contents[i].state == Current
    requires s.contents[i].quantity < s.orders[s.contents[i].order].quantity
    requires w in s.orders[s.contents[i].order].workOrders && DistinctWork(s.orders[s.contents[i].order].workOrders)
    requires s.contents[i].operation == Some(w.id)
    ensures AfterSplit(s, i, Some(d)).Some?
    ensures var moved := AfterSplit(s, i, Some(d)).value.contents[i];
      && (moved.operation.None? ==> forall v | v in d.workOrders :: v.operation != w.operation)
      && (moved.operation.Some? ==> exists k: nat ::
            FirstOfOperation(d.workOrders, w.operation, k) && d.workOrders[k].id == moved.operation.value)
  {
    hide FirstFor, OperationOf;
    SplitSucceeds(s, i, d);
    OperationOfIts(s.orders[s.contents[i].order].workOrders, w);
    FirstForIsFirst(d.workOrders, w.operation);
  }

  lemma SplitTotals(s: Shop, i: nat, d: Deferral)
    requires Valid(s) && Fresh(s, d) && i < |s.contents| && s.contents[i].state == Current
    ensures var t := s.contents[i := Deferred(s, i, d)];
      && Total(t, d.order) == s.contents[i].quantity
      && Total(t, s.contents[i].order) == Total(s.contents, s.contents[i].order) - s.contents[i].quantity
      && forall o | o != d.order && o != s.contents[i].order :: Total(t, o) == Total(s.contents, o)
  {
    assert RowOk(s, s.contents[i]);
    hide RowOk, FirstFor, OperationOf;
    NoShare(s.contents, d.order);
    forall o: int ensures Total(s.contents[i := Deferred(s, i, d)], o)
      == Total(s.contents, o) - Share(s.contents[i], o) + Share(Deferred(s, i, d), o) {
      TotalOfUpdate(s.contents, i, Deferred(s, i, d), o);
    }
  }

  function SplitShop(s: Shop, i: nat, d: Deferral): Shop
    requires i < |s.contents| && s.contents[i].order in s.orders
  {
    Divided(s, s.contents[i], d).(contents := s.contents[i := Deferred(s, i, d)])
  }

  lemma SplitSucceeds(s: Shop, i: nat, d: Deferral)
    requires Valid(s) && Fresh(s, d) && i < |s.contents| && s.contents[i].state == Current
    requires s.contents[i].quantity < s.orders[s.contents[i].order].quantity
    ensures AfterSplit(s, i, Some(d)) == Some(SplitShop(s, i, d))
  {
    hide FirstFor, OperationOf;
    var row, t := s.contents[i], SplitShop(s, i, d);
    var v := Change(None, Some(d.order), None, Some(Deferred(s, i, d).operation), None);
    assert RowOk(s, row);
    assert ChangedAt(s.contents, {i}, v) == t.contents;
    SplitTotals(s, i, d);
    FirstForBelongs(d.workOrders, OperationOf(s.orders[row.order].workOrders, row.operation));
    assert Accepts(t, i);
  }

  lemma SplitKeepsValid(s: Shop, i: nat, d: Deferral)
    requires Valid(s) && Fresh(s, d) && i < |s.contents| && s.contents[i].state == Current
    requires s.contents[i].quantity < s.orders[s.contents[i].order].quantity
    ensures Valid(SplitShop(s, i, d))
  {
    assert RowOk(s, s.contents[i]);
    hide FirstFor, OperationOf, RowOk;
    var t := SplitShop(s, i, d);
    RowsArePositive(s);
    SplitTotals(s, i, d);
    assert Within(s, s.contents[i].order);
    forall o | o in t.orders ensures Within(t, o) {
      assert o in s.orders ==> Within(s, o);
    }
    forall j | 0 <= j < |t.contents| && t.contents[j].state != Deleted ensures RowOk(t, t.contents[j]) {
      if j == i {
        SplitRowOk(s, i, d);
      } else {
        RowInSameShop(s, t, s.contents[j]);
      }
    }
  }

  lemma SplitRowOk(s: Shop, i: nat, d: Deferral)
    requires i < |s.contents| && RowOk(s, s.contents[i]) && d.order !in s.orders
    ensures RowOk(SplitShop(s, i, d), Deferred(s, i, d))
  {
    FirstForBelongs(d.workOrders, OperationOf(s.orders[s.contents[i].order].workOrders, s.contents[i].operation));
  }

  /**
   Between dividing the orders and moving the row the original order overflows exactly when
   its rows exceed what it keeps.
   */
  lemma OverflowInsideSplitExactly(s: Shop, i: nat, d: Deferral)
    requires Valid(s) && Fresh(s, d) && i < |s.contents| && s.contents[i].state == Current
    ensures var row, inside := s.contents[i], Divided(s, s.contents[i], d);
      Valid(inside) <==> Total(s.contents, row.order) + row.quantity <= s.orders[row.order].quantity
  {
    assert RowOk(s, s.contents[i]);
    hide RowOk;
    var row, inside := s.contents[i], Divided(s, s.contents[i], d);
    NoShare(s.contents, d.order);
    RowsArePositive(s);
    assert Within(inside, row.order) <==> Total(s.contents, row.order) + row.quantity <= s.orders[row.order].quantity;
    forall o | o in inside.orders && o != row.order ensures Within(inside, o) {
      assert o in s.orders ==> Within(s, o);
    }
    forall j | 0 <= j < |s.contents| && s.contents[j].state != Deleted ensures RowOk(inside, s.contents[j]) {
      RowInSameShop(s, inside, s.contents[j]);
    }
  }

  // ------------------------------------------------------------ the check refuses nothing else

  /** From a valid shop a write to existing rows is refused exactly when its outcome would break the rule. */
  lemma WriteRefusedExactly(s: Shop, ids: set<nat>, v: Change)
    requires Valid(s) && forall i | i in ids :: i < |s.contents| && s.contents[i].state != Deleted
    requires v.state != Some(Deleted)
    ensures AfterWrite(s, ids, v).Some? <==> Valid(s.(contents := ChangedAt(s.contents, ids, v)))
  {
    hide RowOk;
    var t := s.(contents := ChangedAt(s.contents, ids, v));
    if AfterWrite(s, ids, v).Some? {
      WriteKeepsValid(s, ids, v);
    }
    if Valid(t) {
      forall i | 0 <= i < |t.contents| && i in ids ensures Accepts(t, i) {
        ValidRowAccepted(t, i);
      }
    }
  }

  /** Likewise for new rows. */
  lemma CreateRefusedExactly(s: Shop, rows: seq<Content>)
    requires Valid(s) && forall i | 0 <= i < |rows| :: rows[i].state != Deleted
    ensures AfterCreate(s, rows).Some? <==> Valid(s.(contents := s.contents + FilledAll(s, rows)))
  {
    hide RowOk;
    var t := s.(contents := s.contents + FilledAll(s, rows));
    if AfterCreate(s, rows).Some? {
      CreateKeepsValid(s, rows);
    }
    if Valid(t) {
      forall i | |s.contents| <= i < |t.contents| ensures Accepts(t, i) {
        ValidRowAccepted(t, i);
      }
    }
  }

  lemma ValidRowAccepted(s: Shop, i: nat)
    requires Valid(s) && i < |s.contents| && s.contents[i].state != Deleted
    ensures Accepts(s, i)
  {
    assert RowOk(s, s.contents[i]) && Within(s, s.contents[i].order);
  }

  // ------------------------------------------------------------ over every run

  datatype Command =
    | Create(rows: seq<Content>)
    | Write(ids: set<nat>, change: Change)
    | Transfer(row: nat, board: int)
    | Split(row: nat, deferral: Deferral)
    | Delete(row: nat)

  /** None when the operation raises. */
  function Apply(s: Shop, c: Command): Option<Shop> {
    match c
    case Create(rows) => AfterCreate(s, rows)
    case Write(ids, v) => AfterWrite(s, ids, v)
    case Transfer(i, board) => AfterTransfer(s, i, board)
    case Split(i, d) => AfterSplit(s, i, if Fresh(s, d) then Some(d) else None)
    case Delete(i) => AfterDelete(s, i)
  }

  function Run(s: Shop, cs: seq<Command>): Shop
    decreases |cs|
  {
    if cs == [] then s else Run(Apply(s, cs[0]).GetOr(s), cs[1..])
  }

  /** In every reachable shop the current rows of an order stay within its quantity. */
  lemma {:induction false} RunStaysWithin(s: Shop, cs: seq<Command>)
    requires Valid(s)
    ensures Valid(Run(s, cs))
    decreases |cs|
  {
    hide Valid, AfterCreate, AfterWrite, AfterTransfer, AfterSplit, AfterDelete, Fresh;
    if cs != [] {
      ApplyKeepsValid(s, cs[0]);
      RunStaysWithin(Apply(s, cs[0]).GetOr(s), cs[1..]);
    }
  }

  lemma ApplyKeepsValid(s: Shop, c: Command)
    requires Valid(s)
    ensures Valid(Apply(s, c).GetOr(s))
  {
    if Apply(s, c).Some? {
      match c
      case Create(rows) => CreateKeepsValid(s, rows);
      case Write(ids, v) => WriteKeepsValid(s, ids, v);
      case Transfer(i, board) => TransferConserves(s, i, board);
      case Split(i, d) => SplitConserves(s, i, d);
      case Delete(i) => DeleteKeepsValid(s, i);
    }
  }
}
