/** Recognised turnover events of the URSSAF ledger. */
module Events {
  datatype Category = BicGoods | BicService | Bnc

  datatype EventKey =
    | CabaKey(lineId: int, originId: int, category: Category)
    | ReconciliationKey(partialId: int, invoiceId: int, category: Category)
    | PosKey(orderId: int, category: Category)

  /** Amounts are cents. `methodKnown` is false when the receipt method is unproven. */
  datatype Event = Event(key: EventKey, date: int, category: Category, amount: int, methodKnown: bool)

  /** A dictionary of category totals, in insertion order. */
  type Totals = seq<(Category, int)>

  ghost predicate DistinctCategories(totals: Totals) {
    forall i, j | 0 <= i < j < |totals| :: totals[i].0 != totals[j].0
  }

  ghost predicate NoDuplicateKeys(events: seq<Event>) {
    forall i, j | 0 <= i < j < |events| :: events[i].key != events[j].key
  }

  function AmountIn(events: seq<Event>, category: Category): int {
    if events == [] then 0
    else (if events[0].category == category then events[0].amount else 0) + AmountIn(events[1..], category)
  }

  lemma {:induction false} AmountInAppend(a: seq<Event>, b: seq<Event>, category: Category)
    ensures AmountIn(a + b, category) == AmountIn(a, category) + AmountIn(b, category)
  {
    if a == [] {
      assert a + b == b;
    } else {
      AmountInAppend(a[1..], b, category);
      assert (a + b)[1..] == a[1..] + b;
    }
  }

  /** Events of a chain of windows: (dateFrom..ends[0]), (ends[0]+1..ends[1]), ... */
  function ChainEvents(window: (int, int) -> seq<Event>, dateFrom: int, ends: seq<int>): seq<Event>
    decreases |ends|
  {
    if ends == [] then []
    else window(dateFrom, ends[0]) + ChainEvents(window, ends[0] + 1, ends[1..])
  }

  ghost predicate Chain(dateFrom: int, ends: seq<int>)
    decreases |ends|
  {
    ends != [] ==> dateFrom <= ends[0] + 1 && Chain(ends[0] + 1, ends[1..])
  }

  /** Two adjacent windows give what the covering window gives. */
  ghost predicate Additive(window: (int, int) -> seq<Event>) {
    forall a, m, b | a <= m + 1 <= b + 1 :: window(a, b) == window(a, m) + window(m + 1, b)
  }

  lemma {:induction false} ChainReaches(dateFrom: int, ends: seq<int>)
    requires ends != [] && Chain(dateFrom, ends)
    ensures dateFrom <= ends[|ends| - 1] + 1
    decreases |ends|
  {
    if |ends| > 1 {
      ChainReaches(ends[0] + 1, ends[1..]);
    }
  }

  lemma {:induction false} WindowsConcatenate(window: (int, int) -> seq<Event>, dateFrom: int, ends: seq<int>)
    requires Additive(window) && ends != [] && Chain(dateFrom, ends)
    ensures ChainEvents(window, dateFrom, ends) == window(dateFrom, ends[|ends| - 1])
    decreases |ends|
  {
    var last := ends[|ends| - 1];
    if |ends| > 1 {
      ChainReaches(ends[0] + 1, ends[1..]);
      WindowsConcatenate(window, ends[0] + 1, ends[1..]);
      assert window(dateFrom, last) == window(dateFrom, ends[0]) + window(ends[0] + 1, last);
    } else {
      assert ChainEvents(window, ends[0] + 1, ends[1..]) == [];
    }
  }
}
