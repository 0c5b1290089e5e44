/** Dated levy rates: the overlap refusal and the look-up it is meant to make unambiguous. */
module Rates {
  import opened Common
  import opened Events
  import Calendar

  datatype Levy = Cotisation | Cfp | Chamber | Liberatoire
  datatype TaxpayerKind = Artisan | Merchant | Liberal
  datatype ChamberKind = Cma | Cci | NotRegistered
  datatype Zone = General | Alsace | Moselle

  /** A rate in ten-thousandths of a percent. Dates are day numbers; a missing end is open. */
  datatype Rate = Rate(
    id: int, dateFrom: int, dateTo: Option<int>, levy: Levy, category: Category,
    taxpayerKind: Option<TaxpayerKind>, chamberKind: Option<ChamberKind>, zone: Option<Zone>, rate: int)

  /** The company's status, as the look-up reads it. */
  datatype Status = Status(cfpKind: Option<TaxpayerKind>, chamberKind: Option<ChamberKind>, zone: Option<Zone>)

  /** 9999-12-31: no stored date lies beyond it. */
  const FAR_FUTURE: int := 3652424

  /** The day number of the last date there is. */
  lemma FarFutureIsLastDay()
    ensures Calendar.Valid(Calendar.Date(12 * 9999 + 11, 31))
    ensures Calendar.DayNumber(Calendar.Date(12 * 9999 + 11, 31)) == FAR_FUTURE
  {
    hide Calendar.DayNumber, Calendar.FirstDay, Calendar.IsLeap;
    Calendar.MonthLength(9999, 11);
    Calendar.DayNumberIsOrdinal(Calendar.Date(12 * 9999 + 11, 31));
  }

  predicate SameKey(a: Rate, b: Rate) {
    && a.levy == b.levy && a.category == b.category
    && a.taxpayerKind == b.taxpayerKind && a.chamberKind == b.chamberKind && a.zone == b.zone
  }

  predicate Overlap(a: Rate, b: Rate) {
    && b.dateFrom <= (if a.dateTo.Some? then a.dateTo.value else FAR_FUTURE)
    && (b.dateTo.None? || b.dateTo.value >= a.dateFrom)
  }

  predicate Accepted(table: seq<Rate>, r: Rate) {
    && (r.dateTo.Some? ==> r.dateTo.value >= r.dateFrom)
    && r.rate >= 0
    && forall o | o in table && o.id != r.id :: !(SameKey(r, o) && Overlap(r, o))
  }

  /** The constraint on a stored rule: its dates, its rate, and no overlap with another rule of its key. */
  method CheckValidity(table: seq<Rate>, r: Rate) returns (accepted: bool)
    ensures accepted <==> Accepted(table, r)
  {
    if r.dateTo.Some? && r.dateTo.value < r.dateFrom {
      return false;
    }
    if r.rate < 0 {
      return false;
    }
    var until := r.dateTo.GetOr(FAR_FUTURE);
    for i := 0 to |table|
      invariant forall o | o in table[..i] && o.id != r.id :: !(SameKey(r, o) && Overlap(r, o))
    {
      var o := table[i];
      assert o in table && table[..i + 1] == table[..i] + [o];
      if o.id != r.id && o.levy == r.levy && o.category == r.category
         && o.taxpayerKind == r.taxpayerKind && o.chamberKind == r.chamberKind && o.zone == r.zone {
        if o.dateFrom <= until && (o.dateTo.None? || o.dateTo.value >= r.dateFrom) {
          return false;
        }
      }
    }
    assert table[..|table|] == table;
    accepted := true;
  }

  predicate InForce(r: Rate, date: int) {
    r.dateFrom <= date && (r.dateTo.None? || r.dateTo.value >= date)
  }

  /** The domain `rate_for` searches. */
  predicate Applies(r: Rate, levy: Levy, category: Category, date: int, status: Status) {
    && r.levy == levy && r.category == category && InForce(r, date)
    && (levy == Cfp ==> r.taxpayerKind == if category == Bnc then Some(Liberal) else status.cfpKind)
    && (levy == Chamber ==> r.chamberKind == status.chamberKind
                            && (status.chamberKind == Some(Cma) ==> r.zone == status.zone))
  }

  /** Newest start first, then highest id. */
  predicate Before(a: Rate, b: Rate) {
    a.dateFrom > b.dateFrom || (a.dateFrom == b.dateFrom && a.id > b.id)
  }

  method RateFor(table: seq<Rate>, levy: Levy, category: Category, date: int,
                 status: Status) returns (found: Option<Rate>)
    ensures found.None? ==> forall r | r in table :: !Applies(r, levy, category, date, status)
    ensures found.Some? ==> found.value in table && Applies(found.value, levy, category, date, status)
    ensures found.Some? ==> forall r | r in table && Applies(r, levy, category, date, status) :: !Before(r, found.value)
  {
    found := None;
    for i := 0 to |table|
      invariant found.None? ==> forall r | r in table[..i] :: !Applies(r, levy, category, date, status)
      invariant found.Some? ==> found.value in table && Applies(found.value, levy, category, date, status)
      invariant found.Some? ==>
        forall r | r in table[..i] && Applies(r, levy, category, date, status) :: !Before(r, found.value)
    {
      assert table[..i + 1] == table[..i] + [table[i]];
      var r := table[i];
      var inForce := r.dateFrom <= date && (r.dateTo.None? || date <= r.dateTo.value);
      var fits := r.levy == levy && r.category == category;
      if levy == Cfp {
        fits := fits && r.taxpayerKind == if category == Bnc then Some(Liberal) else status.cfpKind;
      } else if levy == Chamber {
        fits := fits && r.chamberKind == status.chamberKind;
        if status.chamberKind == Some(Cma) {
          fits := fits && r.zone == status.zone;
        }
      }
      if inForce && fits && (found.None? || r.dateFrom > found.value.dateFrom
                             || (r.dateFrom == found.value.dateFrom && r.id > found.value.id)) {
        found := Some(r);
      }
    }
    assert table[..|table|] == table;
  }

  // ------------------------------------------------------------ what the refusal keeps

  /** Ids are unique, dates are storable, and rules of one applicability key never overlap. */
  ghost predicate Consistent(table: seq<Rate>) {
    && (forall i, j | 0 <= i < j < |table| :: table[i].id != table[j].id)
    && (forall r | r in table ::
       r.dateFrom <= FAR_FUTURE && (r.dateTo.Some? ==> r.dateFrom <= r.dateTo.value <= FAR_FUTURE))
    && (forall a, b | a in table && b in table && a.id != b.id && SameKey(a, b) :: !Overlap(a, b))
  }

  /** Storing an accepted rule, new or rewritten, keeps the table consistent. */
  lemma StoringKeepsConsistent(table: seq<Rate>, k: nat, r: Rate)
    requires Consistent(table) && k <= |table| && Accepted(table, r) && r.dateFrom <= FAR_FUTURE
    requires r.dateTo.Some? ==> r.dateTo.value <= FAR_FUTURE
    requires k < |table| ==> table[k].id == r.id
    requires k == |table| ==> forall o | o in table :: o.id != r.id
    ensures Consistent(if k < |table| then table[k := r] else table + [r])
  {
    var table' := if k < |table| then table[k := r] else table + [r];
    forall x | x in table' && x != r ensures x in table {
    }
    forall a, b | a in table' && b in table' && a.id != b.id && SameKey(a, b) ensures !Overlap(a, b) {
      OverlapSymmetric(a, b);
    }
  }

  lemma OverlapSymmetric(a: Rate, b: Rate)
    requires a.dateFrom <= FAR_FUTURE && b.dateFrom <= FAR_FUTURE
    ensures Overlap(a, b) <==> Overlap(b, a)
  {
  }

  /** Some look-up matches both: equal in the columns the search reads for the levy. */
  predicate UsedKeysAgree(a: Rate, b: Rate) {
    && a.levy == b.levy && a.category == b.category
    && (a.levy == Cfp ==> a.taxpayerKind == b.taxpayerKind && (a.category == Bnc ==> a.taxpayerKind == Some(Liberal)))
    && (a.levy == Chamber ==> a.chamberKind == b.chamberKind && (a.chamberKind == Some(Cma) ==> a.zone == b.zone))
  }

  /** Every look-up on a storable date finds at most one rule. */
  ghost predicate OneMatch(table: seq<Rate>) {
    forall levy, category, date, status, a, b |
      date <= FAR_FUTURE && a in table && b in table
      && Applies(a, levy, category, date, status) && Applies(b, levy, category, date, status) :: a == b
  }

  /** No two rules that some look-up reads alike are in force together. */
  predicate Unambiguous(table: seq<Rate>) {
    forall a, b | a in table && b in table && a.id != b.id :: !(UsedKeysAgree(a, b) && Overlap(a, b))
  }

  /** A status both rules apply to. */
  function StatusFor(a: Rate): Status {
    Status(a.taxpayerKind, a.chamberKind, a.zone)
  }

  lemma BothApply(a: Rate, b: Rate)
    requires UsedKeysAgree(a, b) && Overlap(a, b) && a.dateFrom <= FAR_FUTURE && b.dateFrom <= FAR_FUTURE
    requires (a.dateTo.Some? ==> a.dateFrom <= a.dateTo.value) && (b.dateTo.Some? ==> b.dateFrom <= b.dateTo.value)
    ensures var date := Max(a.dateFrom, b.dateFrom);
      Applies(a, a.levy, a.category, date, StatusFor(a)) && Applies(b, a.levy, a.category, date, StatusFor(a))
  {
  }

  lemma AgreeWhenBothApply(a: Rate, b: Rate, levy: Levy, category: Category, date: int, status: Status)
    requires Applies(a, levy, category, date, status) && Applies(b, levy, category, date, status) && date <= FAR_FUTURE
    ensures UsedKeysAgree(a, b) && Overlap(a, b)
  {
  }

  /** Each dated rate is the only match exactly when the table is unambiguous in the columns the search reads. */
  lemma RateIsTheOnlyMatchExactly(table: seq<Rate>)
    requires Consistent(table)
    ensures OneMatch(table) <==> Unambiguous(table)
  {
    hide Applies, UsedKeysAgree, Overlap;
    if OneMatch(table) {
      forall a, b | a in table && b in table && a.id != b.id ensures !(UsedKeysAgree(a, b) && Overlap(a, b)) {
        if UsedKeysAgree(a, b) && Overlap(a, b) {
          BothApply(a, b);
        }
      }
    }
    if Unambiguous(table) {
      forall levy, category, date, status, a, b |
        date <= FAR_FUTURE && a in table && b in table
        && Applies(a, levy, category, date, status) && Applies(b, levy, category, date, status) ensures a == b
      {
        AgreeWhenBothApply(a, b, levy, category, date, status);
        SameIdSameRate(table, a, b);
      }
    }
  }

  lemma SameIdSameRate(table: seq<Rate>, a: Rate, b: Rate)
    requires Consistent(table) && a in table && b in table && a.id == b.id
    ensures a == b
  {
    var i :| 0 <= i < |table| && table[i] == a;
    var j :| 0 <= j < |table| && table[j] == b;
  }

  /**
   Key columns a levy does not use are empty: taxpayer only for training, chamber only for
   the chamber tax, zone only for crafts.
   */
  predicate UnusedKeysEmpty(r: Rate) {
    && (r.levy != Cfp ==> r.taxpayerKind.None?)
    && (r.levy != Chamber ==> r.chamberKind.None?)
    && (r.levy != Chamber || r.chamberKind != Some(Cma) ==> r.zone.None?)
  }

  /** So the refusal of overlaps suffices once unused key columns are empty. */
  lemma RateIsTheOnlyMatch(table: seq<Rate>)
    requires Consistent(table) && forall r | r in table :: UnusedKeysEmpty(r)
    ensures OneMatch(table)
  {
    hide Overlap, OneMatch;
    forall a, b | a in table && b in table && a.id != b.id ensures !(UsedKeysAgree(a, b) && Overlap(a, b)) {
      if UsedKeysAgree(a, b) {
        assert SameKey(a, b);
      }
    }
    RateIsTheOnlyMatchExactly(table);
  }

  /** A stray entry in a column the levy does not use defeats the refusal: two contribution rates, both accepted. */
  lemma StrayKeyColumnIsAmbiguous()
    ensures var a := Rate(1, 0, None, Cotisation, BicGoods, None, None, None, 123000);
      var b := Rate(2, 0, None, Cotisation, BicGoods, Some(Artisan), None, None, 128000);
      Consistent([a, b]) && Accepted([a], b) && !OneMatch([a, b])
  {
    var a := Rate(1, 0, None, Cotisation, BicGoods, None, None, None, 123000);
    var b := Rate(2, 0, None, Cotisation, BicGoods, Some(Artisan), None, None, 128000);
    assert UsedKeysAgree([a, b][0], [a, b][1]);
    RateIsTheOnlyMatchExactly([a, b]);
  }
}
