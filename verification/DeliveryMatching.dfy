/**
 Delivery dates of invoiced goods: which customer deliveries an invoice line
 of one sale line is matched with. Every line does its own skip-then-take walk
 over the deliveries; the reference is one first-in-first-out match of all
 lines against all deliveries.
 */
module DeliveryMatching {
  import opened Common
  import opened Rounding
  import opened Sorting

  datatype MoveType = OutInvoice | OutReceipt | OutRefund

  /** A posted product line of the sale line. `amount` is minus its balance, in cents. */
  datatype InvoiceLine = InvoiceLine(
    id: int, moveId: int, date: int, moveType: MoveType,
    quantity: int, amount: int, operationDate: Option<int>)

  /** A stock move of the sale line; `moment` counts minutes. */
  datatype StockMove = StockMove(
    id: int, moment: int, quantity: int, done: bool, toCustomer: bool)

  datatype VatKey = VatManual(lineId: int) | VatDelivery(lineId: int, moveId: int)

  datatype VatEvent = VatEvent(date: int, amount: int, key: VatKey)

  /** What is left of one delivery. */
  datatype Delivery = Delivery(id: int, day: int, quantity: nat)

  /** Part of one delivery given to an invoice line. */
  datatype Share = Share(id: int, day: int, quantity: nat)

  const MINUTES_PER_DAY := 1440

  function Day(moment: int): (day: int)
    ensures 24 * 60 * day <= moment < 24 * 60 * (day + 1)
  {
    moment / MINUTES_PER_DAY
  }

  function LineKey(line: InvoiceLine): Key {
    (line.date, line.moveId, line.id)
  }

  function MoveKey(move: StockMove): Key {
    (move.moment, move.id, 0)
  }

  function CustomerMoves(moves: seq<StockMove>): (r: seq<StockMove>)
    ensures forall m :: m in r <==> m in moves && m.done && m.toCustomer
  {
    if moves == [] then []
    else (if moves[0].done && moves[0].toCustomer then [moves[0]] else []) + CustomerMoves(moves[1..])
  }

  function ToDelivery(move: StockMove): Delivery {
    Delivery(move.id, Day(move.moment), Abs(move.quantity))
  }

  /** Completed customer deliveries, oldest first. */
  function Deliveries(moves: seq<StockMove>): (r: seq<Delivery>) {
    var sorted := SortBy(CustomerMoves(moves), MoveKey);
    seq(|sorted|, i requires 0 <= i < |sorted| => ToDelivery(sorted[i]))
  }

  /** A delivery holds what its move brought, on the move's day. */
  ghost predicate IsDelivery(d: Delivery, move: StockMove) {
    && d.id == move.id && d.quantity == (if move.quantity < 0 then -move.quantity else move.quantity)
    && 24 * 60 * d.day <= move.moment < 24 * 60 * (d.day + 1)
  }

  /** By moment, then by id. */
  ghost predicate OldestFirst(moves: seq<StockMove>) {
    forall i, j | 0 <= i < j < |moves| ::
      moves[i].moment < moves[j].moment || (moves[i].moment == moves[j].moment && moves[i].id <= moves[j].id)
  }

  /** The deliveries are the completed moves to the customer, oldest first. */
  lemma DeliveriesAre(moves: seq<StockMove>) returns (inOrder: seq<StockMove>)
    ensures multiset(inOrder) == multiset(CustomerMoves(moves)) && OldestFirst(inOrder)
    ensures |Deliveries(moves)| == |inOrder|
    ensures forall i | 0 <= i < |inOrder| :: IsDelivery(Deliveries(moves)[i], inOrder[i])
  {
    hide SortBy, Day;
    inOrder := SortBy(CustomerMoves(moves), MoveKey);
    SortBySorted(CustomerMoves(moves), MoveKey);
    forall i, j | 0 <= i < j < |inOrder|
      ensures inOrder[i].moment < inOrder[j].moment
        || (inOrder[i].moment == inOrder[j].moment && inOrder[i].id <= inOrder[j].id)
    {
      assert !KeyLess(MoveKey(inOrder[j]), MoveKey(inOrder[i]));
    }
  }

  /** Lines that use deliveries up: invoices and receipts, never refunds. */
  predicate Consumes(line: InvoiceLine) {
    line.moveType != OutRefund
  }

  /** Quantity invoiced on the sale line before `line`. */
  function PriorQuantity(line: InvoiceLine, lines: seq<InvoiceLine>): nat {
    if lines == [] then 0
    else
      (if Consumes(lines[0]) && lines[0].id != line.id && KeyLess(LineKey(lines[0]), LineKey(line))
       then Abs(lines[0].quantity) else 0)
      + PriorQuantity(line, lines[1..])
  }

  /** Skip what earlier lines used, then take what this line invoices. */
  function SkipTake(skip: nat, wanted: nat, ds: seq<Delivery>): seq<Share>
    decreases |ds|
  {
    if ds == [] || wanted == 0 then []
    else if skip >= ds[0].quantity then SkipTake(skip - ds[0].quantity, wanted, ds[1..])
    else
      var taken := Min(wanted, ds[0].quantity - skip);
      [Share(ds[0].id, ds[0].day, taken)] + SkipTake(0, wanted - taken, ds[1..])
  }

  /** The shares a line's own walk finds. */
  function OwnShares(line: InvoiceLine, lines: seq<InvoiceLine>, ds: seq<Delivery>): seq<Share> {
    SkipTake(PriorQuantity(line, lines), Abs(line.quantity), ds)
  }

  /** The rounded part of the line's amount that `quantity` units carry. */
  function Proportion(line: InvoiceLine, quantity: int): int
    requires line.quantity != 0
  {
    RoundDiv(line.amount * quantity, Abs(line.quantity))
  }

  /** Value of each share; the share that completes the line takes what is left of the amount. */
  function Priced(line: InvoiceLine, remaining: nat, valued: int, shares: seq<Share>): seq<VatEvent>
    requires line.quantity != 0
    decreases |shares|
  {
    if shares == [] then []
    else
      var left := remaining - shares[0].quantity;
      var value := if left == 0 then line.amount - valued
                   else Proportion(line, shares[0].quantity);
      [VatEvent(shares[0].day, value, VatDelivery(line.id, shares[0].id))]
      + Priced(line, if left >= 0 then left else 0, valued + value, shares[1..])
  }

  function GoodsEvents(line: InvoiceLine, lines: seq<InvoiceLine>, moves: seq<StockMove>): seq<VatEvent> {
    if line.operationDate.Some? then [VatEvent(line.operationDate.value, line.amount, VatManual(line.id))]
    else if line.quantity == 0 then []
    else Priced(line, Abs(line.quantity), 0, OwnShares(line, lines, Deliveries(moves)))
  }

  // ------------------------------------------------------------ the loops

  method InvoicedBefore(line: InvoiceLine, lines: seq<InvoiceLine>) returns (priorQuantity: nat)
    ensures priorQuantity == PriorQuantity(line, lines)
  {
    priorQuantity := 0;
    for i := 0 to |lines|
      invariant priorQuantity + PriorQuantity(line, lines[i..]) == PriorQuantity(line, lines)
    {
      var prior := lines[i];
      if prior.id != line.id && prior.moveType in {OutInvoice, OutReceipt} {
        if prior.date < line.date || (prior.date == line.date
           && (prior.moveId < line.moveId || (prior.moveId == line.moveId && prior.id < line.id))) {
          priorQuantity := priorQuantity + Abs(prior.quantity);
        }
      }
    }
  }

  method WalkDeliveries(line: InvoiceLine, priorQuantity: nat, ds: seq<Delivery>) returns (events: seq<VatEvent>)
    requires line.quantity != 0
    ensures events == Priced(line, Abs(line.quantity), 0, SkipTake(priorQuantity, Abs(line.quantity), ds))
  {
    hide RoundDiv, Priced, SkipTake;
    var remaining: nat := Abs(line.quantity);
    var skipQuantity: nat := priorQuantity;
    var valued := 0;
    events := [];
    ghost var all := Priced(line, remaining, 0, SkipTake(priorQuantity, remaining, ds));
    for i := 0 to |ds|
      invariant remaining > 0
      invariant all == events + Priced(line, remaining, valued, SkipTake(skipQuantity, remaining, ds[i..]))
    {
      ghost var rest := WalkStep(line, skipQuantity, remaining, valued, ds[i..], ds[i + 1..]);
      if skipQuantity >= ds[i].quantity {
        skipQuantity := skipQuantity - ds[i].quantity;
        continue;
      }
      var available := ds[i].quantity - skipQuantity;
      skipQuantity := 0;
      var quantity := Min(remaining, available);
      if quantity == 0 {
        continue;
      }
      remaining := remaining - quantity;
      var value := RoundDiv(line.amount * quantity, Abs(line.quantity));
      if remaining == 0 {
        value := line.amount - valued;
      }
      valued := valued + value;
      var event := VatEvent(ds[i].day, value, VatDelivery(line.id, ds[i].id));
      AppendOne(events, event, rest);
      events := events + [event];
      if remaining == 0 {
        return;
      }
    }
    NothingLeft(line, skipQuantity, remaining, valued);
    assert ds[|ds|..] == [];
  }

  lemma NothingLeft(line: InvoiceLine, skip: nat, remaining: nat, valued: int)
    requires line.quantity != 0
    ensures Priced(line, remaining, valued, SkipTake(skip, remaining, [])) == []
  {
  }

  method VatGoodsEventsForLine(line: InvoiceLine, lines: seq<InvoiceLine>, moves: seq<StockMove>)
    returns (events: seq<VatEvent>)
    ensures events == GoodsEvents(line, lines, moves)
  {
    if line.operationDate.Some? {
      return [VatEvent(line.operationDate.value, line.amount, VatManual(line.id))];
    }
    var ds := Deliveries(moves);
    if |ds| == 0 || line.quantity == 0 {
      return [];
    }
    var priorQuantity := InvoicedBefore(line, lines);
    events := WalkDeliveries(line, priorQuantity, ds);
  }

  /** One turn of the walk, as the loop makes it. */
  lemma {:induction false} WalkStep(line: InvoiceLine, skip: nat, remaining: nat, valued: int,
                                    ds: seq<Delivery>, tail: seq<Delivery>) returns (rest: seq<VatEvent>)
    requires line.quantity != 0 && remaining > 0 && ds != [] && tail == ds[1..]
    ensures skip >= ds[0].quantity ==>
      SkipTake(skip, remaining, ds) == SkipTake(skip - ds[0].quantity, remaining, tail)
    ensures skip < ds[0].quantity ==>
      var taken := Min(remaining, ds[0].quantity - skip);
      var left := remaining - taken;
      var value := if left == 0 then line.amount - valued else Proportion(line, taken);
      && Priced(line, remaining, valued, SkipTake(skip, remaining, ds))
         == [VatEvent(ds[0].day, value, VatDelivery(line.id, ds[0].id))] + rest
      && rest == if left == 0 then [] else Priced(line, left, valued + value, SkipTake(0, left, tail))
  {
    rest := [];
    if skip < ds[0].quantity {
      var taken := Min(remaining, ds[0].quantity - skip);
      var left := remaining - taken;
      var value := if left == 0 then line.amount - valued else Proportion(line, taken);
      var shares := SkipTake(skip, remaining, ds);
      assert shares == [Share(ds[0].id, ds[0].day, taken)] + SkipTake(0, left, tail);
      assert shares[1..] == SkipTake(0, left, tail);
      rest := Priced(line, left, valued + value, SkipTake(0, left, tail));
    }
  }

  /** The operation date is the earliest event date. */
  method VatOperationDate(line: InvoiceLine, lines: seq<InvoiceLine>, moves: seq<StockMove>)
    returns (date: Option<int>)
    ensures GoodsEvents(line, lines, moves) == [] ==> date == None
    ensures GoodsEvents(line, lines, moves) != [] ==> date == Some(GoodsEvents(line, lines, moves)[0].date)
  {
    var events := VatGoodsEventsForLine(line, lines, moves);
    date := None;
    for i := 0 to |events|
      invariant i == 0 ==> date == None
      invariant i > 0 ==> date == Some(events[0].date)
    {
      EventDatesNeverGoBack(line, lines, moves, 0, i);
      if date.None? || events[i].date < date.value {
        date := Some(events[i].date);
      }
    }
  }

  // ------------------------------------------------------------ the reference match

  datatype Demand = Demand(lineId: int, quantity: nat)
  datatype Allocation = Allocation(lineId: int, share: Share)

  /** One first-in-first-out pass: the oldest open line takes from the oldest open delivery. */
  function GlobalMatch(demands: seq<Demand>, ds: seq<Delivery>): seq<Allocation>
    decreases |demands| + |ds|
  {
    if demands == [] || ds == [] then []
    else if demands[0].quantity == 0 then GlobalMatch(demands[1..], ds)
    else if ds[0].quantity == 0 then GlobalMatch(demands, ds[1..])
    else
      var first := Allocation(demands[0].lineId,
                              Share(ds[0].id, ds[0].day, Min(demands[0].quantity, ds[0].quantity)));
      [first] + if demands[0].quantity <= ds[0].quantity
                then GlobalMatch(demands[1..], Reduced(ds, demands[0].quantity))
                else GlobalMatch([Demand(demands[0].lineId, demands[0].quantity - ds[0].quantity)]
                    + demands[1..], ds[1..])
  }

  /** The deliveries once `n` units have left the first one. */
  function Reduced(ds: seq<Delivery>, n: nat): (r: seq<Delivery>)
    requires ds != [] && n <= ds[0].quantity
    ensures |r| == |ds|
  {
    [ds[0].(quantity := ds[0].quantity - n)] + ds[1..]
  }

  function SliceOf(lineId: int, allocations: seq<Allocation>): seq<Share> {
    if allocations == [] then []
    else (if allocations[0].lineId == lineId then [allocations[0].share] else [])
         + SliceOf(lineId, allocations[1..])
  }

  function Demanded(demands: seq<Demand>): nat {
    if demands == [] then 0 else demands[0].quantity + Demanded(demands[1..])
  }

  ghost predicate DistinctLines(demands: seq<Demand>) {
    forall i, j | 0 <= i < j < |demands| :: demands[i].lineId != demands[j].lineId
  }

  lemma {:induction false} SkipTakeReduced(skip: nat, wanted: nat, ds: seq<Delivery>, n: nat)
    requires ds != [] && n <= ds[0].quantity && n <= skip
    ensures SkipTake(skip, wanted, ds) == SkipTake(skip - n, wanted, Reduced(ds, n))
  {
    assert Reduced(ds, n)[1..] == ds[1..];
  }

  lemma {:induction false} NoSliceForAbsentLine(lineId: int, demands: seq<Demand>, ds: seq<Delivery>)
    requires forall d | d in demands :: d.lineId != lineId
    ensures SliceOf(lineId, GlobalMatch(demands, ds)) == []
    decreases |demands| + |ds|
  {
    if demands == [] || ds == [] {
    } else if demands[0].quantity == 0 {
      NoSliceForAbsentLine(lineId, demands[1..], ds);
    } else if ds[0].quantity == 0 {
      NoSliceForAbsentLine(lineId, demands, ds[1..]);
    } else if demands[0].quantity <= ds[0].quantity {
      NoSliceForAbsentLine(lineId, demands[1..], Reduced(ds, demands[0].quantity));
      assert GlobalMatch(demands, ds)[1..] == GlobalMatch(demands[1..], Reduced(ds, demands[0].quantity));
    } else {
      var less := [Demand(demands[0].lineId, demands[0].quantity - ds[0].quantity)] + demands[1..];
      NoSliceForAbsentLine(lineId, less, ds[1..]);
      assert GlobalMatch(demands, ds)[1..] == GlobalMatch(less, ds[1..]);
    }
  }

  lemma {:induction false} SliceStep(lineId: int, demands: seq<Demand>, ds: seq<Delivery>)
    requires demands != [] && ds != [] && demands[0].quantity > 0 && ds[0].quantity > 0
    ensures var d, q := demands[0], ds[0].quantity;
      SliceOf(lineId, GlobalMatch(demands, ds))
      == (if d.lineId == lineId then [Share(ds[0].id, ds[0].day, Min(d.quantity, q))] else [])
         + if d.quantity <= q then SliceOf(lineId, GlobalMatch(demands[1..], Reduced(ds, d.quantity)))
           else SliceOf(lineId, GlobalMatch([Demand(d.lineId, d.quantity - q)] + demands[1..], ds[1..]))
  {
    var d, q := demands[0], ds[0].quantity;
    var rest := if d.quantity <= q then GlobalMatch(demands[1..], Reduced(ds, d.quantity))
                else GlobalMatch([Demand(d.lineId, d.quantity - q)] + demands[1..], ds[1..]);
    assert GlobalMatch(demands, ds)[1..] == rest;
  }

  /** A line's separate skip-then-take walk is exactly its slice of the one global match. */
  lemma {:induction false} SkipTakeIsGlobalSlice(demands: seq<Demand>, k: nat, ds: seq<Delivery>)
    requires k < |demands| && DistinctLines(demands)
    ensures SliceOf(demands[k].lineId, GlobalMatch(demands, ds))
         == SkipTake(Demanded(demands[..k]), demands[k].quantity, ds)
    decreases |demands| + |ds|, 1
  {
    var d := demands[0];
    DemandedStep(demands, k);
    if ds == [] {
    } else if d.quantity == 0 {
      TailSlice(demands, k, ds);
    } else if ds[0].quantity == 0 {
      SkipTakeIsGlobalSlice(demands, k, ds[1..]);
    } else if d.quantity <= ds[0].quantity {
      SliceOfSettled(demands, k, ds);
    } else {
      SliceOfOpen(demands, k, ds);
    }
  }

  /** The first line is settled by the first delivery. */
  lemma {:induction false} SliceOfSettled(demands: seq<Demand>, k: nat, ds: seq<Delivery>)
    requires k < |demands| && DistinctLines(demands) && ds != []
    requires 0 < demands[0].quantity <= ds[0].quantity
    ensures SliceOf(demands[k].lineId, GlobalMatch(demands, ds))
         == SkipTake(Demanded(demands[..k]), demands[k].quantity, ds)
    decreases |demands| + |ds|, 0
  {
    var d := demands[0];
    DemandedStep(demands, k);
    SliceStep(demands[k].lineId, demands, ds);
    TailSlice(demands, k, Reduced(ds, d.quantity));
    if k == 0 {
      assert SkipTake(0, d.quantity, ds) == [Share(ds[0].id, ds[0].day, d.quantity)] + SkipTake(0, 0, ds[1..]);
    } else {
      SkipTakeReduced(Demanded(demands[..k]), demands[k].quantity, ds, d.quantity);
    }
  }

  /** The first line empties the first delivery and stays open. */
  lemma {:induction false} SliceOfOpen(demands: seq<Demand>, k: nat, ds: seq<Delivery>)
    requires k < |demands| && DistinctLines(demands) && ds != []
    requires demands[0].quantity > ds[0].quantity > 0
    ensures SliceOf(demands[k].lineId, GlobalMatch(demands, ds))
         == SkipTake(Demanded(demands[..k]), demands[k].quantity, ds)
    decreases |demands| + |ds|, 0
  {
    hide GlobalMatch, SliceOf, Demanded;
    var d, q := demands[0], ds[0].quantity;
    var less := [Demand(d.lineId, d.quantity - q)] + demands[1..];
    assert forall i | 0 <= i < |demands| :: less[i].lineId == demands[i].lineId;
    SliceStep(demands[k].lineId, demands, ds);
    DemandedStep(demands, k);
    DemandedStep(less, k);
    assert less[1..] == demands[1..];
    SkipTakeIsGlobalSlice(less, k, ds[1..]);
    if k == 0 {
      assert SkipTake(0, d.quantity, ds) == [Share(ds[0].id, ds[0].day, q)] + SkipTake(0, d.quantity - q, ds[1..]);
    } else {
      assert d.lineId != demands[k].lineId;
    }
  }

  lemma {:induction false} DemandedStep(demands: seq<Demand>, k: nat)
    requires k < |demands|
    ensures Demanded(demands[..k]) == if k == 0 then 0 else demands[0].quantity + Demanded(demands[1..][..k - 1])
  {
    if k > 0 {
      assert demands[..k][1..] == demands[1..][..k - 1];
    }
  }

  /** The slice of line `k` once the first line is settled. */
  lemma {:induction false} TailSlice(demands: seq<Demand>, k: nat, ds: seq<Delivery>)
    requires k < |demands| && DistinctLines(demands)
    ensures SliceOf(demands[k].lineId, GlobalMatch(demands[1..], ds))
         == if k == 0 then [] else SkipTake(Demanded(demands[1..][..k - 1]), demands[k].quantity, ds)
    decreases |demands| + |ds| - 1, 2
  {
    if k == 0 {
      NoSliceForAbsentLine(demands[0].lineId, demands[1..], ds);
    } else {
      SkipTakeIsGlobalSlice(demands[1..], k - 1, ds);
    }
  }

  // ------------------------------------------------------------ from the records to the reference

  function Consumers(lines: seq<InvoiceLine>): (r: seq<InvoiceLine>)
    ensures forall l :: l in r <==> l in lines && Consumes(l)
  {
    if lines == [] then []
    else (if Consumes(lines[0]) then [lines[0]] else []) + Consumers(lines[1..])
  }

  function DemandsOf(lines: seq<InvoiceLine>): (r: seq<Demand>)
    ensures |r| == |lines|
    ensures forall i | 0 <= i < |lines| :: r[i] == Demand(lines[i].id, Abs(lines[i].quantity))
  {
    seq(|lines|, i requires 0 <= i < |lines| => Demand(lines[i].id, Abs(lines[i].quantity)))
  }

  /** The invoice and receipt lines of the sale line, oldest first. */
  function InOrder(lines: seq<InvoiceLine>): seq<InvoiceLine> {
    SortBy(Consumers(lines), LineKey)
  }

  ghost predicate DistinctIds(lines: seq<InvoiceLine>) {
    forall i, j | 0 <= i < j < |lines| :: lines[i].id != lines[j].id
  }

  function Contribution(line: InvoiceLine, x: InvoiceLine): nat {
    if Consumes(x) && x.id != line.id && KeyLess(LineKey(x), LineKey(line)) then Abs(x.quantity) else 0
  }

  lemma {:induction false} PriorQuantityOfInsert(line: InvoiceLine, x: InvoiceLine, s: seq<InvoiceLine>)
    ensures PriorQuantity(line, Insert(x, s, LineKey)) == Contribution(line, x) + PriorQuantity(line, s)
  {
    if s != [] && KeyLess(LineKey(s[0]), LineKey(x)) {
      PriorQuantityOfInsert(line, x, s[1..]);
    } else {
      assert ([x] + s)[1..] == s;
    }
  }

  lemma {:induction false} PriorQuantityInOrder(line: InvoiceLine, lines: seq<InvoiceLine>)
    ensures PriorQuantity(line, lines) == PriorQuantity(line, InOrder(lines))
  {
    if lines != [] {
      PriorQuantityInOrder(line, lines[1..]);
      if Consumes(lines[0]) {
        assert Consumers(lines)[1..] == Consumers(lines[1..]);
        PriorQuantityOfInsert(line, lines[0], InOrder(lines[1..]));
      } else {
        assert Consumers(lines) == Consumers(lines[1..]);
      }
    }
  }

  lemma {:induction false} InsertDistinct(x: InvoiceLine, s: seq<InvoiceLine>)
    requires DistinctIds(s) && forall y | y in s :: y.id != x.id
    ensures DistinctIds(Insert(x, s, LineKey))
  {
    if s != [] && KeyLess(LineKey(s[0]), LineKey(x)) {
      InsertDistinct(x, s[1..]);
      var t := Insert(x, s[1..], LineKey);
      forall j | 0 <= j < |t| ensures t[j].id != s[0].id {
        assert t[j] in multiset(t);
        assert t[j] == x || t[j] in s[1..];
      }
    }
  }

  lemma {:induction false} InOrderFacts(lines: seq<InvoiceLine>)
    requires DistinctIds(lines)
    ensures DistinctIds(InOrder(lines)) && SortedBy(InOrder(lines), LineKey)
    ensures forall l :: l in InOrder(lines) <==> l in lines && Consumes(l)
  {
    SortBySorted(Consumers(lines), LineKey);
    SortByMembers(Consumers(lines), LineKey);
    if lines != [] {
      InOrderFacts(lines[1..]);
      if Consumes(lines[0]) {
        assert Consumers(lines)[1..] == Consumers(lines[1..]);
        assert forall y | y in lines[1..] :: y.id != lines[0].id;
        InsertDistinct(lines[0], InOrder(lines[1..]));
      } else {
        assert Consumers(lines) == Consumers(lines[1..]);
      }
    }
  }

  lemma {:induction false} PriorQuantityFrom(s: seq<InvoiceLine>, k: nat, i: nat)
    requires k < |s| && i <= |s| && SortedBy(s, LineKey) && DistinctIds(s)
    requires forall l | l in s :: Consumes(l)
    ensures PriorQuantity(s[k], s[i..]) == if i < k then Demanded(DemandsOf(s)[i..k]) else 0
    decreases |s| - i
  {
    if i < |s| {
      PriorQuantityFrom(s, k, i + 1);
      assert s[i..][0] == s[i] && s[i..][1..] == s[i + 1..] && s[i] in s;
      if i < k {
        assert !KeyLess(LineKey(s[k]), LineKey(s[i])) && s[i].id != s[k].id;
        assert KeyLess(LineKey(s[i]), LineKey(s[k]));
        assert DemandsOf(s)[i..k][1..] == DemandsOf(s)[i + 1..k];
      } else if k < i {
        assert !KeyLess(LineKey(s[i]), LineKey(s[k]));
      }
    }
  }

  /** Every invoice or receipt line of a sale line gets, from its own walk, its slice of the global match. */
  lemma OwnSharesAreGlobalSlice(line: InvoiceLine, lines: seq<InvoiceLine>, ds: seq<Delivery>)
    requires DistinctIds(lines) && line in lines && Consumes(line)
    ensures OwnShares(line, lines, ds) == SliceOf(line.id, GlobalMatch(DemandsOf(InOrder(lines)), ds))
  {
    var s := InOrder(lines);
    InOrderFacts(lines);
    var k :| 0 <= k < |s| && s[k] == line;
    PriorQuantityInOrder(line, lines);
    assert s[0..] == s;
    PriorQuantityFrom(s, k, 0);
    assert DemandsOf(s)[0..k] == DemandsOf(s)[..k];
    SkipTakeIsGlobalSlice(DemandsOf(s), k, ds);
  }

  // ------------------------------------------------------------ stock is never used twice

  function Used(id: int, shares: seq<Share>): nat {
    if shares == [] then 0
    else (if shares[0].id == id then shares[0].quantity else 0) + Used(id, shares[1..])
  }

  function UsedBy(id: int, lines: seq<InvoiceLine>, all: seq<InvoiceLine>, ds: seq<Delivery>): nat {
    if lines == [] then 0
    else Used(id, OwnShares(lines[0], all, ds)) + UsedBy(id, lines[1..], all, ds)
  }

  function UsedIn(id: int, allocations: seq<Allocation>): nat {
    if allocations == [] then 0
    else (if allocations[0].share.id == id then allocations[0].share.quantity else 0)
         + UsedIn(id, allocations[1..])
  }

  ghost predicate DistinctDeliveries(ds: seq<Delivery>) {
    forall i, j | 0 <= i < j < |ds| :: ds[i].id != ds[j].id
  }

  lemma {:induction false} GlobalMatchWithinStock(demands: seq<Demand>, ds: seq<Delivery>, id: int)
    requires DistinctDeliveries(ds)
    ensures (forall d | d in ds :: d.id != id) ==> UsedIn(id, GlobalMatch(demands, ds)) == 0
    ensures forall j | 0 <= j < |ds| && ds[j].id == id :: UsedIn(id, GlobalMatch(demands, ds)) <= ds[j].quantity
    decreases |demands| + |ds|
  {
    if demands == [] || ds == [] {
    } else if demands[0].quantity == 0 {
      GlobalMatchWithinStock(demands[1..], ds, id);
    } else if ds[0].quantity == 0 {
      GlobalMatchWithinStock(demands, ds[1..], id);
    } else if demands[0].quantity <= ds[0].quantity {
      var reduced := Reduced(ds, demands[0].quantity);
      assert forall j | 0 < j < |ds| :: reduced[j] == ds[j];
      GlobalMatchWithinStock(demands[1..], reduced, id);
      assert GlobalMatch(demands, ds)[1..] == GlobalMatch(demands[1..], reduced);
      assert ds[0] in ds && reduced[0] in reduced;
      assert (forall d | d in ds :: d.id != id) ==> forall d | d in reduced :: d.id != id;
    } else {
      var less := [Demand(demands[0].lineId, demands[0].quantity - ds[0].quantity)] + demands[1..];
      GlobalMatchWithinStock(less, ds[1..], id);
      assert GlobalMatch(demands, ds)[1..] == GlobalMatch(less, ds[1..]);
      assert ds[0] in ds;
      if ds[0].id == id {
        assert forall d | d in ds[1..] :: d.id != id;
      }
    }
  }

  /** Slices of different lines never share an allocation. */
  lemma {:induction false} SlicesAddUp(id: int, allocations: seq<Allocation>, s: seq<InvoiceLine>)
    requires DistinctIds(s)
    ensures UsedInSlices(id, allocations, s) <= UsedIn(id, allocations)
  {
    if allocations == [] {
      NoSlices(id, s);
    } else {
      SlicesAddUp(id, allocations[1..], s);
      SlicesOfTail(id, allocations, s);
    }
  }

  function UsedInSlices(id: int, allocations: seq<Allocation>, s: seq<InvoiceLine>): nat {
    if s == [] then 0
    else Used(id, SliceOf(s[0].id, allocations)) + UsedInSlices(id, allocations, s[1..])
  }

  lemma {:induction false} NoSlices(id: int, s: seq<InvoiceLine>)
    ensures UsedInSlices(id, [], s) == 0
  {
    if s != [] {
      NoSlices(id, s[1..]);
    }
  }

  lemma {:induction false} SlicesOfTail(id: int, allocations: seq<Allocation>, s: seq<InvoiceLine>)
    requires allocations != [] && DistinctIds(s)
    ensures UsedInSlices(id, allocations, s)
         <= (if allocations[0].share.id == id && exists l :: l in s && l.id == allocations[0].lineId
             then allocations[0].share.quantity else 0)
            + UsedInSlices(id, allocations[1..], s)
  {
    if s != [] {
      var a := allocations[0];
      SlicesOfTail(id, allocations, s[1..]);
      if s[0].id == a.lineId {
        assert SliceOf(s[0].id, allocations)[1..] == SliceOf(s[0].id, allocations[1..]);
        assert forall l | l in s[1..] :: l.id != a.lineId;
        assert s[0] in s;
      } else {
        assert SliceOf(s[0].id, allocations) == SliceOf(s[0].id, allocations[1..]);
        assert forall l | l in s[1..] :: l in s;
      }
    }
  }

  lemma {:induction false} UsedByIsSlices(id: int, lines: seq<InvoiceLine>, all: seq<InvoiceLine>, ds: seq<Delivery>)
    requires DistinctIds(all) && forall l | l in lines :: l in all && Consumes(l)
    ensures UsedBy(id, lines, all, ds) == UsedInSlices(id, GlobalMatch(DemandsOf(InOrder(all)), ds), lines)
  {
    if lines != [] {
      OwnSharesAreGlobalSlice(lines[0], all, ds);
      UsedByIsSlices(id, lines[1..], all, ds);
    }
  }

  /** All invoice and receipt lines together never use more of a delivery than was delivered. */
  lemma NoDeliveryOverused(lines: seq<InvoiceLine>, ds: seq<Delivery>, j: nat)
    requires DistinctIds(lines) && DistinctDeliveries(ds) && j < |ds|
    ensures UsedBy(ds[j].id, InOrder(lines), lines, ds) <= ds[j].quantity
  {
    InOrderFacts(lines);
    var global := GlobalMatch(DemandsOf(InOrder(lines)), ds);
    UsedByIsSlices(ds[j].id, InOrder(lines), lines, ds);
    SlicesAddUp(ds[j].id, global, InOrder(lines));
    GlobalMatchWithinStock(DemandsOf(InOrder(lines)), ds, ds[j].id);
  }

  ghost predicate DistinctMoves(moves: seq<StockMove>) {
    forall i, j | 0 <= i < j < |moves| :: moves[i].id != moves[j].id
  }

  lemma {:induction false} InsertKeepsMoves(x: StockMove, s: seq<StockMove>)
    requires DistinctMoves(s) && forall y | y in s :: y.id != x.id
    ensures DistinctMoves(Insert(x, s, MoveKey))
  {
    if s != [] && KeyLess(MoveKey(s[0]), MoveKey(x)) {
      InsertKeepsMoves(x, s[1..]);
      var t := Insert(x, s[1..], MoveKey);
      forall j | 0 <= j < |t| ensures t[j].id != s[0].id {
        assert t[j] in multiset(t);
        assert t[j] == x || t[j] in s[1..];
      }
    }
  }

  lemma {:induction false} SortedMovesDistinct(moves: seq<StockMove>)
    requires DistinctMoves(moves)
    ensures DistinctMoves(SortBy(CustomerMoves(moves), MoveKey))
  {
    if moves != [] {
      SortedMovesDistinct(moves[1..]);
      var rest := SortBy(CustomerMoves(moves[1..]), MoveKey);
      SortByMembers(CustomerMoves(moves[1..]), MoveKey);
      if moves[0].done && moves[0].toCustomer {
        assert CustomerMoves(moves)[1..] == CustomerMoves(moves[1..]);
        forall y | y in rest ensures y.id != moves[0].id {
          assert y in moves[1..];
        }
        InsertKeepsMoves(moves[0], rest);
      } else {
        assert CustomerMoves(moves) == CustomerMoves(moves[1..]);
      }
    }
  }

  /** In the records: no stock move gives the lines more than it delivered. */
  lemma NoMoveOverused(lines: seq<InvoiceLine>, moves: seq<StockMove>, j: nat)
    requires DistinctIds(lines) && DistinctMoves(moves) && j < |Deliveries(moves)|
    ensures UsedBy(Deliveries(moves)[j].id, InOrder(lines), lines, Deliveries(moves)) <= Deliveries(moves)[j].quantity
  {
    SortedMovesDistinct(moves);
    NoDeliveryOverused(lines, Deliveries(moves), j);
  }

  // ------------------------------------------------------------ which units a walk takes

  function Overlap(a: int, b: int, c: int, d: int): nat {
    Max(0, Min(b, d) - Max(a, c))
  }

  /** Of every delivery a walk takes what its slice and the delivery's place in the queue have in common. */
  lemma {:induction false} UsedIsOverlap(skip: nat, wanted: nat, ds: seq<Delivery>, j: nat)
    requires DistinctDeliveries(ds) && j < |ds|
    ensures Used(ds[j].id, SkipTake(skip, wanted, ds))
         == Overlap(skip, skip + wanted, Delivered(ds[..j]), Delivered(ds[..j]) + ds[j].quantity)
    decreases |ds|
  {
    var rest := ds[1..];
    if j == 0 {
      forall d | d in rest ensures d.id != ds[0].id {}
      assert ds[..0] == [];
      if wanted != 0 {
        if skip >= ds[0].quantity {
          NotUsed(ds[0].id, skip - ds[0].quantity, wanted, rest);
        } else {
          NotUsed(ds[0].id, 0, wanted - Min(wanted, ds[0].quantity - skip), rest);
        }
      }
    } else {
      assert ds[j].id != ds[0].id && rest[j - 1] == ds[j];
      assert ds[..j][1..] == rest[..j - 1] && Delivered(ds[..j]) == ds[0].quantity + Delivered(rest[..j - 1]);
      if wanted != 0 {
        if skip >= ds[0].quantity {
          UsedIsOverlap(skip - ds[0].quantity, wanted, rest, j - 1);
        } else {
          UsedIsOverlap(0, wanted - Min(wanted, ds[0].quantity - skip), rest, j - 1);
        }
      }
    }
  }

  lemma {:induction false} NotUsed(id: int, skip: nat, wanted: nat, ds: seq<Delivery>)
    requires forall d | d in ds :: d.id != id
    ensures Used(id, SkipTake(skip, wanted, ds)) == 0
    decreases |ds|
  {
    if ds != [] && wanted != 0 {
      if skip >= ds[0].quantity {
        NotUsed(id, skip - ds[0].quantity, wanted, ds[1..]);
      } else {
        assert ds[0] in ds;
        NotUsed(id, 0, wanted - Min(wanted, ds[0].quantity - skip), ds[1..]);
      }
    }
  }

  /** Unit `u` of delivery `j` lies in the line's slice. */
  predicate TakesUnit(line: InvoiceLine, lines: seq<InvoiceLine>, ds: seq<Delivery>, j: nat, u: nat)
    requires j < |ds|
  {
    u < ds[j].quantity
    && PriorQuantity(line, lines) <= Delivered(ds[..j]) + u < PriorQuantity(line, lines) + Abs(line.quantity)
  }

  function UnitsTaken(line: InvoiceLine, lines: seq<InvoiceLine>, ds: seq<Delivery>, j: nat, n: nat): nat
    requires j < |ds|
  {
    if n == 0 then 0 else UnitsTaken(line, lines, ds, j, n - 1) + if TakesUnit(line, lines, ds, j, n - 1) then 1 else 0
  }

  /** The units a line takes of a delivery are as many as its own walk allots it. */
  lemma UnitsAreUsed(line: InvoiceLine, lines: seq<InvoiceLine>, ds: seq<Delivery>, j: nat)
    requires DistinctDeliveries(ds) && j < |ds|
    ensures UnitsTaken(line, lines, ds, j, ds[j].quantity) == Used(ds[j].id, OwnShares(line, lines, ds))
  {
    UsedIsOverlap(PriorQuantity(line, lines), Abs(line.quantity), ds, j);
    UnitsAreOverlap(line, lines, ds, j, ds[j].quantity);
  }

  lemma {:induction false} UnitsAreOverlap(line: InvoiceLine, lines: seq<InvoiceLine>, ds: seq<Delivery>, j: nat,
                                           n: nat)
    requires j < |ds| && n <= ds[j].quantity
    ensures var skip, start := PriorQuantity(line, lines), Delivered(ds[..j]);
      UnitsTaken(line, lines, ds, j, n) == Overlap(skip, skip + Abs(line.quantity), start, start + n)
  {
    if n > 0 {
      UnitsAreOverlap(line, lines, ds, j, n - 1);
    }
  }

  // ------------------------------------------------------------ refunds

  /** An invoice or receipt line takes a unit the refund takes. */
  ghost predicate GivenAgain(refund: InvoiceLine, lines: seq<InvoiceLine>, ds: seq<Delivery>) {
    exists l, j: nat, u: nat :: l in lines && Consumes(l) && j < |ds|
      && TakesUnit(refund, lines, ds, j, u) && TakesUnit(l, lines, ds, j, u)
  }

  /** An invoice or receipt line of some quantity comes after the refund. */
  predicate FollowedBySale(refund: InvoiceLine, lines: seq<InvoiceLine>) {
    exists l | l in lines :: Consumes(l) && l.quantity != 0 && KeyLess(LineKey(refund), LineKey(l))
  }

  lemma {:induction false} UnitAt(ds: seq<Delivery>, x: nat) returns (j: nat, u: nat)
    requires x < Delivered(ds)
    ensures j < |ds| && u < ds[j].quantity && Delivered(ds[..j]) + u == x
  {
    if x < ds[0].quantity {
      j, u := 0, x;
      assert ds[..0] == [];
    } else {
      var i;
      i, u := UnitAt(ds[1..], x - ds[0].quantity);
      j := i + 1;
      assert ds[..j][1..] == ds[1..][..i];
    }
  }

  lemma {:induction false} DeliveredWithin(ds: seq<Delivery>, j: nat)
    requires j < |ds|
    ensures Delivered(ds[..j]) + ds[j].quantity <= Delivered(ds)
  {
    if j > 0 {
      DeliveredWithin(ds[1..], j - 1);
      assert ds[..j][1..] == ds[1..][..j - 1];
    } else {
      assert ds[..0] == [];
    }
  }

  /** An earlier consumer's slice lies before the later line's. */
  lemma {:induction false} EarlierSliceIsSkipped(l: InvoiceLine, line: InvoiceLine, lines: seq<InvoiceLine>)
    requires DistinctIds(lines) && l.id != line.id && Consumes(l) && KeyLess(LineKey(l), LineKey(line))
    requires forall x | x in lines :: x.id == line.id ==> x == line
    ensures PriorQuantity(line, lines) >= PriorQuantity(l, lines) + if l in lines then Abs(l.quantity) else 0
  {
    if lines != [] {
      assert lines == [lines[0]] + lines[1..];
      assert forall x | x in lines[1..] :: x.id != lines[0].id;
      EarlierSliceIsSkipped(l, line, lines[1..]);
    }
  }

  /** Between the two lines nothing of any quantity is invoiced. */
  lemma {:induction false} SameSkip(refund: InvoiceLine, l: InvoiceLine, lines: seq<InvoiceLine>)
    requires !Consumes(refund) && Consumes(l) && KeyLess(LineKey(refund), LineKey(l))
    requires forall x | x in lines && Consumes(x) && x.quantity != 0 && x != l
      && KeyLess(LineKey(refund), LineKey(x)) ::
      !KeyLess(LineKey(x), LineKey(l))
    requires forall x | x in lines :: Consumes(x) ==> x.id != refund.id
    requires forall x | x in lines && x.id == l.id :: x == l
    ensures PriorQuantity(l, lines) == PriorQuantity(refund, lines)
  {
    if lines != [] {
      assert lines[0] in lines;
      SameSkip(refund, l, lines[1..]);
    }
  }

  lemma {:induction false} FirstSaleAfter(refund: InvoiceLine, lines: seq<InvoiceLine>) returns (l: InvoiceLine)
    requires FollowedBySale(refund, lines)
    ensures l in lines && Consumes(l) && l.quantity != 0 && KeyLess(LineKey(refund), LineKey(l))
    ensures forall x | x in lines && Consumes(x) && x.quantity != 0 && KeyLess(LineKey(refund), LineKey(x)) ::
      !KeyLess(LineKey(x), LineKey(l))
  {
    assert lines == [lines[0]] + lines[1..];
    if FollowedBySale(refund, lines[1..]) {
      l := FirstSaleAfter(refund, lines[1..]);
      if Consumes(lines[0]) && lines[0].quantity != 0 && KeyLess(LineKey(refund), LineKey(lines[0]))
         && KeyLess(LineKey(lines[0]), LineKey(l)) {
        l := lines[0];
      }
    } else {
      l := lines[0];
    }
  }

  /**
   Refunds are outside the promise. A refund takes goods an invoice or receipt
   line also takes exactly when it is for some quantity, goods were delivered
   beyond what was invoiced before it, and a sale follows it.
   */
  lemma RefundSliceGivenAgainExactly(refund: InvoiceLine, lines: seq<InvoiceLine>, ds: seq<Delivery>)
    requires DistinctIds(lines) && refund in lines && !Consumes(refund)
    ensures GivenAgain(refund, lines, ds) <==>
      refund.quantity != 0 && Delivered(ds) > PriorQuantity(refund, lines) && FollowedBySale(refund, lines)
  {
    hide PriorQuantity, Delivered, KeyLess, LineKey;
    if GivenAgain(refund, lines, ds) {
      var l, j: nat, u: nat :| l in lines && Consumes(l) && j < |ds|
        && TakesUnit(refund, lines, ds, j, u) && TakesUnit(l, lines, ds, j, u);
      DeliveredWithin(ds, j);
      SameLine(lines, l, refund);
      KeysApart(l, refund);
      if KeyLess(LineKey(l), LineKey(refund)) {
        forall x | x in lines ensures x.id == refund.id ==> x == refund {
          SameLine(lines, x, refund);
        }
        EarlierSliceIsSkipped(l, refund, lines);
      }
    }
    if refund.quantity != 0 && Delivered(ds) > PriorQuantity(refund, lines) && FollowedBySale(refund, lines) {
      var l := FirstSaleAfter(refund, lines);
      forall x | x in lines ensures x.id == l.id ==> x == l {
        SameLine(lines, x, l);
      }
      forall x | x in lines ensures Consumes(x) ==> x.id != refund.id {
        SameLine(lines, x, refund);
      }
      SameSkip(refund, l, lines);
      var j, u := UnitAt(ds, PriorQuantity(refund, lines));
      assert TakesUnit(refund, lines, ds, j, u) && TakesUnit(l, lines, ds, j, u);
    }
  }

  lemma SameLine(lines: seq<InvoiceLine>, a: InvoiceLine, b: InvoiceLine)
    requires DistinctIds(lines) && a in lines && b in lines
    ensures a.id == b.id ==> a == b
  {
  }

  lemma KeysApart(a: InvoiceLine, b: InvoiceLine)
    requires a.id != b.id
    ensures KeyLess(LineKey(a), LineKey(b)) || KeyLess(LineKey(b), LineKey(a))
  {
  }

  /** Concretely: the refund of the first of two deliveries takes the second, and so does the next invoice. */
  lemma RefundSliceOverlaps()
    ensures
      var invoice := InvoiceLine(1, 1, 5, OutInvoice, 1, 1000, None);
      var refund := InvoiceLine(2, 2, 6, OutRefund, 1, -1000, None);
      var lines := [invoice, refund];
      var ds := [Delivery(7, 4, 1), Delivery(8, 4, 1)];
      var later := InvoiceLine(3, 3, 7, OutInvoice, 1, 1000, None);
      OwnShares(refund, lines + [later], ds) == OwnShares(later, lines + [later], ds) == [Share(8, 4, 1)]
  {
    var invoice := InvoiceLine(1, 1, 5, OutInvoice, 1, 1000, None);
    var refund := InvoiceLine(2, 2, 6, OutRefund, 1, -1000, None);
    var later := InvoiceLine(3, 3, 7, OutInvoice, 1, 1000, None);
    var ds := [Delivery(7, 4, 1), Delivery(8, 4, 1)];
    var all := [invoice, refund] + [later];
    assert all[1..] == [refund, later] && all[1..][1..] == [later] && all[1..][1..][1..] == [];
    assert PriorQuantity(refund, []) == PriorQuantity(later, []) == 0;
    assert PriorQuantity(refund, [later]) == PriorQuantity(later, [later]) == 0;
    assert PriorQuantity(refund, all[1..]) == PriorQuantity(later, all[1..]) == 0;
    assert ds[1..] == [Delivery(8, 4, 1)];
    assert SkipTake(0, 1, ds[1..]) == [Share(8, 4, 1)];
  }

  // ------------------------------------------------------------ dates and values

  ghost predicate DaysInOrder(ds: seq<Delivery>) {
    forall i, j | 0 <= i < j < |ds| :: ds[i].day <= ds[j].day
  }

  lemma DeliveriesInOrder(moves: seq<StockMove>)
    ensures DaysInOrder(Deliveries(moves))
  {
    var sorted := SortBy(CustomerMoves(moves), MoveKey);
    SortBySorted(CustomerMoves(moves), MoveKey);
    forall i, j | 0 <= i < j < |sorted| ensures Day(sorted[i].moment) <= Day(sorted[j].moment) {
      assert !KeyLess(MoveKey(sorted[j]), MoveKey(sorted[i]));
    }
  }

  ghost predicate SharesOrdered(shares: seq<Share>, from: int) {
    && (forall i | 0 <= i < |shares| :: from <= shares[i].day)
    && (forall i, j | 0 <= i < j < |shares| :: shares[i].day <= shares[j].day)
  }

  lemma {:induction false} SharesInOrder(skip: nat, wanted: nat, ds: seq<Delivery>, from: int)
    requires DaysInOrder(ds) && forall d | d in ds :: from <= d.day
    ensures SharesOrdered(SkipTake(skip, wanted, ds), from)
    decreases |ds|
  {
    if ds == [] || wanted == 0 {
    } else if skip >= ds[0].quantity {
      SharesInOrder(skip - ds[0].quantity, wanted, ds[1..], from);
    } else {
      var taken := Min(wanted, ds[0].quantity - skip);
      assert ds[0] in ds;
      SharesInOrder(0, wanted - taken, ds[1..], ds[0].day);
    }
  }

  lemma {:induction false} PricedDates(line: InvoiceLine, remaining: nat, valued: int, shares: seq<Share>)
    requires line.quantity != 0
    ensures |Priced(line, remaining, valued, shares)| == |shares|
    ensures forall i | 0 <= i < |shares| ::
      var e := Priced(line, remaining, valued, shares)[i];
      e.date == shares[i].day && e.key == VatDelivery(line.id, shares[i].id)
    decreases |shares|
  {
    if shares != [] {
      var left := remaining - shares[0].quantity;
      var value := if left == 0 then line.amount - valued else Proportion(line, shares[0].quantity);
      PricedDates(line, if left >= 0 then left else 0, valued + value, shares[1..]);
    }
  }

  /** Later events of a line are never dated before earlier ones. */
  lemma EventDatesNeverGoBack(line: InvoiceLine, lines: seq<InvoiceLine>, moves: seq<StockMove>, i: nat, j: nat)
    requires i <= j < |GoodsEvents(line, lines, moves)|
    ensures GoodsEvents(line, lines, moves)[i].date <= GoodsEvents(line, lines, moves)[j].date
  {
    if line.operationDate.None? && i < j {
      var ds := Deliveries(moves);
      DeliveriesInOrder(moves);
      PricedDates(line, Abs(line.quantity), 0, OwnShares(line, lines, ds));
      assert OwnShares(line, lines, ds) != [] && ds != [];
      SharesInOrder(PriorQuantity(line, lines), Abs(line.quantity), ds, ds[0].day);
    }
  }

  function Quantity(shares: seq<Share>): nat {
    if shares == [] then 0 else shares[0].quantity + Quantity(shares[1..])
  }

  function Delivered(ds: seq<Delivery>): nat {
    if ds == [] then 0 else ds[0].quantity + Delivered(ds[1..])
  }

  function Value(events: seq<VatEvent>): int {
    if events == [] then 0 else events[0].amount + Value(events[1..])
  }

  lemma {:induction false} SkipTakeQuantity(skip: nat, wanted: nat, ds: seq<Delivery>)
    ensures Quantity(SkipTake(skip, wanted, ds)) == Min(wanted, Max(0, Delivered(ds) - skip))
    ensures forall s | s in SkipTake(skip, wanted, ds) :: s.quantity > 0
    decreases |ds|
  {
    if ds == [] || wanted == 0 {
    } else if skip >= ds[0].quantity {
      SkipTakeQuantity(skip - ds[0].quantity, wanted, ds[1..]);
    } else {
      var taken := Min(wanted, ds[0].quantity - skip);
      SkipTakeQuantity(0, wanted - taken, ds[1..]);
      assert SkipTake(skip, wanted, ds)[1..] == SkipTake(0, wanted - taken, ds[1..]);
    }
  }

  lemma {:induction false} PricedValue(line: InvoiceLine, remaining: nat, valued: int, shares: seq<Share>)
    requires line.quantity != 0 && shares != [] && Quantity(shares) == remaining
    requires forall s | s in shares :: s.quantity > 0
    ensures Value(Priced(line, remaining, valued, shares)) == line.amount - valued
    decreases |shares|
  {
    var left := remaining - shares[0].quantity;
    var value := if left == 0 then line.amount - valued
                 else Proportion(line, shares[0].quantity);
    var rest := Priced(line, left, valued + value, shares[1..]);
    assert Priced(line, remaining, valued, shares)[1..] == rest;
    if |shares| == 1 {
      assert Quantity(shares[1..]) == 0;
    } else {
      assert shares[1..] != [] && shares[1] in shares && Quantity(shares[1..]) >= shares[1].quantity;
      PricedValue(line, left, valued + value, shares[1..]);
    }
  }

  /** A share that leaves something of the line open is valued at the nearest cent of its part. */
  lemma {:induction false} PricedNearest(line: InvoiceLine, remaining: nat, valued: int, shares: seq<Share>, i: nat)
    requires line.quantity != 0 && i < |shares| && Quantity(shares[..i + 1]) < remaining
    ensures i < |Priced(line, remaining, valued, shares)|
    ensures IsNearest(Priced(line, remaining, valued, shares)[i].amount, line.amount * shares[i].quantity,
      Abs(line.quantity))
    decreases |shares|
  {
    var value := Proportion(line, shares[0].quantity);
    assert shares[..i + 1][1..] == shares[1..][..i];
    RoundDivNearest(line.amount * shares[0].quantity, Abs(line.quantity));
    if i > 0 {
      PricedNearest(line, remaining - shares[0].quantity, valued + value, shares[1..], i - 1);
    }
  }

  /**
   A line whose deliveries reach the end of its slice is valued at exactly its
   amount. Whatever is delivered, an event that leaves something of the line
   open carries the nearest cent of its part of the amount, ties away from zero.
   */
  lemma FullyDeliveredValue(line: InvoiceLine, lines: seq<InvoiceLine>, moves: seq<StockMove>)
    requires line.operationDate.None? && line.quantity != 0
    ensures var events := GoodsEvents(line, lines, moves);
      var shares := OwnShares(line, lines, Deliveries(moves));
      var wanted := Abs(line.quantity);
      && |events| == |shares|
      && (Delivered(Deliveries(moves)) >= PriorQuantity(line, lines) + wanted ==>
            Quantity(shares) == wanted && Value(events) == line.amount)
      && (Delivered(Deliveries(moves)) < PriorQuantity(line, lines) + wanted ==>
            Quantity(shares) < wanted)
      && (forall i | 0 <= i < |events| && Quantity(shares[..i + 1]) < wanted ::
            IsNearest(events[i].amount, line.amount * shares[i].quantity, wanted))
      && (forall i | 0 <= i < |events| ::
            events[i].date == shares[i].day && events[i].key == VatDelivery(line.id, shares[i].id))
  {
    var ds, wanted := Deliveries(moves), Abs(line.quantity);
    var shares := OwnShares(line, lines, ds);
    SkipTakeQuantity(PriorQuantity(line, lines), wanted, ds);
    PricedDates(line, wanted, 0, shares);
    assert GoodsEvents(line, lines, moves) == Priced(line, wanted, 0, shares);
    if Quantity(shares) == wanted {
      assert shares != [];
      PricedValue(line, wanted, 0, shares);
    }
    forall i | 0 <= i < |shares| && Quantity(shares[..i + 1]) < wanted
      ensures IsNearest(Priced(line, wanted, 0, shares)[i].amount, line.amount * shares[i].quantity, wanted)
    {
      PricedNearest(line, wanted, 0, shares, i);
    }
  }
}
