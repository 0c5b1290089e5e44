/** The board operations as they change the shop in place. */
module BoardFloor {
  import opened Common
  import opened Boards

  class Floor {
    var boards: map<int, Board>
    var orders: map<int, Order>
    var contents: seq<Content>

    function Now(): Shop
      reads this
    {
      Shop(boards, orders, contents)
    }

    method CurrentTotal(order: int) returns (total: real)
      ensures total == Total(contents, order)
    {
      total := 0.0;
      for i := 0 to |contents|
        invariant total == Total(contents[..i], order)
      {
        TotalOfConcat(contents[..i], [contents[i]], order);
        assert contents[..i + 1] == contents[..i] + [contents[i]];
        if contents[i].state == Current && contents[i].order == order {
          total := total + contents[i].quantity;
        }
      }
      assert contents[..|contents|] == contents;
    }

    method CheckRow(i: nat) returns (ok: bool)
      requires i < |contents|
      ensures ok == Accepts(Now(), i)
    {
      if !RowOk(Now(), contents[i]) {
        return false;
      }
      var total := CurrentTotal(contents[i].order);
      ok := total <= orders[contents[i].order].quantity;
    }

    method FillIn(rows: seq<Content>) returns (filled: seq<Content>)
      ensures filled == FilledAll(Now(), rows)
    {
      filled := [];
      for i := 0 to |rows|
        invariant |filled| == i && forall j | 0 <= j < i :: filled[j] == Filled(Now(), rows[j])
      {
        var row := rows[i];
        if row.operation.None? && row.order in orders {
          row := row.(operation := FirstOpen(orders[row.order].workOrders));
        }
        filled := filled + [row];
      }
    }

    method CreateRows(rows: seq<Content>) returns (r: Outcome)
      modifies this`contents
      ensures AfterCreate(old(Now()), rows) == if r == Done then Some(Now()) else None
      ensures r == Refused ==> Now() == old(Now())
    {
      var before := contents;
      var filled := FillIn(rows);
      contents := contents + filled;
      ghost var t := Now();
      for i := |before| to |contents|
        invariant Now() == t && forall j | |before| <= j < i :: Accepts(t, j)
      {
        var ok := CheckRow(i);
        if !ok {
          contents := before;
          return Refused;
        }
      }
      r := Done;
    }

    method WriteRows(ids: set<nat>, v: Change) returns (r: Outcome)
      modifies this`contents
      ensures AfterWrite(old(Now()), ids, v) == if r == Done then Some(Now()) else None
      ensures r == Refused ==> Now() == old(Now())
    {
      if exists i :: i in ids && (i >= |contents| || contents[i].state == Deleted) {
        return Refused;
      }
      var before := contents;
      contents := ChangedAt(contents, ids, v);
      ghost var t := Now();
      for i := 0 to |contents|
        invariant Now() == t && forall j | 0 <= j < i && j in ids :: Accepts(t, j)
      {
        if i in ids {
          var ok := CheckRow(i);
          if !ok {
            contents := before;
            return Refused;
          }
        }
      }
      r := Done;
    }

    /** Removes the row from its board and loads the same ware on another. */
    method TransferTo(i: nat, board: int) returns (r: Outcome)
      modifies this`contents
      ensures AfterTransfer(old(Now()), i, board) == if r == Done then Some(Now()) else None
      ensures r == Refused ==> Now() == old(Now())
    {
      if i >= |contents| || contents[i].state != Current {
        return Refused;
      }
      var before, row := contents, contents[i];
      r := WriteRows({i}, REMOVAL);
      if r == Done {
        r := CreateRows([Content(board, row.order, row.quantity, row.operation, Current, Some(i))]);
        if r == Refused {
          contents := before;
        }
      }
    }

    /** Moves the whole row to its own new order; `deferral` is what Odoo's split creates. */
    method SplitForLater(i: nat, deferral: Option<Deferral>) returns (r: Outcome)
      modifies this
      ensures AfterSplit(old(Now()), i, deferral) == if r == Done then Some(Now()) else None
      ensures r == Refused ==> Now() == old(Now())
    {
      if i >= |contents| || contents[i].state != Current {
        return Refused;
      }
      var row, before := contents[i], orders;
      if row.order !in orders {
        return Refused;
      }
      var order := orders[row.order];
      var remaining := order.quantity - row.quantity;
      if remaining <= 0.0 || deferral.None? {
        return Refused;
      }
      var d := deferral.value;
      var operation := FirstFor(d.workOrders, OperationOf(order.workOrders, row.operation));
      orders := orders[row.order := order.(quantity := remaining)][d.order := Order(row.quantity, order.company,
          d.workOrders)];
      r := WriteRows({i}, Change(None, Some(d.order), None, Some(operation), None));
      if r == Refused {
        orders := before;
      }
    }
  }
}
