/** The keyed cache of product lookups: one row for an article, answered until it expires. */
module Lookups {
  import opened Common
  import opened CheckDigits

  datatype Candidate = Candidate(identifier: string, payload: string)

  /** No candidate is the `not_found` status. */
  datatype Row = Row(candidate: Option<Candidate>, cachedAt: int, expiresAt: int)

  datatype Error = InvalidCheckDigit | TtlNotPositive | IdentifierMismatch | CorruptRow

  datatype Answer = Raised(error: Error) | Miss | Hit(row: Row)

  type Key = seq<Digit>
  type Rows = map<Key, Row>

  /** The key a candidate's own identifier reads as; the lookup of an invalid one raises. */
  function Mismatch(candidate: Option<Candidate>, key: Key): Option<Error> {
    if candidate.None? then None
    else
      match ComparisonGtin(candidate.value.identifier)
      case None => Some(InvalidCheckDigit)
      case Some(own) => if own == key then None else Some(IdentifierMismatch)
  }

  class LookupCache {
    var rows: Rows

    constructor ()
      ensures rows == map[]
    {
      rows := map[];
    }

    method Get(barcode: string, now: int) returns (a: Answer)
      ensures a == Read(rows, barcode, now)
    {
      match ComparisonGtin(barcode)
      case None => return Raised(InvalidCheckDigit);
      case Some(key) =>
        if key !in rows || rows[key].expiresAt <= now {
          return Miss;
        }
        var row := rows[key];
        if row.candidate.Some? {
          match ComparisonGtin(row.candidate.value.identifier)
          case None => return Raised(InvalidCheckDigit);
          case Some(own) =>
            if own != key {
              return Raised(CorruptRow);
            }
        }
        a := Hit(row);
    }

    method Put(barcode: string, candidate: Option<Candidate>, ttl: int, now: int) returns (error: Option<Error>)
      modifies this
      ensures error == WhyRefused(Entry(barcode, candidate, ttl, now))
      ensures rows == After(old(rows), Entry(barcode, candidate, ttl, now))
    {
      if ttl <= 0 {
        return Some(TtlNotPositive);
      }
      match ComparisonGtin(barcode)
      case None => return Some(InvalidCheckDigit);
      case Some(key) =>
        if candidate.Some? {
          match ComparisonGtin(candidate.value.identifier)
          case None => return Some(InvalidCheckDigit);
          case Some(own) =>
            if own != key {
              return Some(IdentifierMismatch);
            }
        }
        rows := rows[key := Row(candidate, now, now + ttl)];
        error := None;
    }
  }

  // ------------------------------------------------------------ histories

  /** One call of put. */
  datatype Entry = Entry(barcode: string, candidate: Option<Candidate>, ttl: int, now: int)

  function WhyRefused(e: Entry): Option<Error> {
    if e.ttl <= 0 then Some(TtlNotPositive)
    else
      match ComparisonGtin(e.barcode)
      case None => Some(InvalidCheckDigit)
      case Some(key) => Mismatch(e.candidate, key)
  }

  /** A put is accepted exactly with a lasting answer, a valid barcode, and a candidate that is the same article. */
  lemma PutAcceptedExactly(e: Entry)
    ensures WhyRefused(e).None? <==>
      && e.ttl > 0 && Gs1Valid(DigitsOf(e.barcode))
      && (e.candidate.Some? ==>
            var own := DigitsOf(e.candidate.value.identifier);
            Gs1Valid(own) && Number(own) == Number(DigitsOf(e.barcode)))
  {
    hide Number, DigitsOf, Gs1Valid, Padded;
    if Gs1Valid(DigitsOf(e.barcode)) && e.candidate.Some? && Gs1Valid(DigitsOf(e.candidate.value.identifier)) {
      SameKeyExactly(e.candidate.value.identifier, e.barcode);
    }
  }

  function After(rows: Rows, e: Entry): Rows {
    if WhyRefused(e).Some? then rows
    else rows[ComparisonGtin(e.barcode).value := Row(e.candidate, e.now, e.now + e.ttl)]
  }

  function AfterAll(history: seq<Entry>): Rows {
    if history == [] then map[] else After(AfterAll(history[..|history| - 1]), history[|history| - 1])
  }

  function Read(rows: Rows, barcode: string, now: int): Answer {
    match ComparisonGtin(barcode)
    case None => Raised(InvalidCheckDigit)
    case Some(key) =>
      if key !in rows || rows[key].expiresAt <= now then Miss
      else
        match Mismatch(rows[key].candidate, key)
        case None => Hit(rows[key])
        case Some(error) => Raised(if error == IdentifierMismatch then CorruptRow else error)
  }

  /** An accepted put for the article the digits spell. */
  predicate Stores(e: Entry, article: nat) {
    WhyRefused(e).None? && Number(DigitsOf(e.barcode)) == article
  }

  /** Puts at `i` is the latest accepted one for the article. */
  ghost predicate IsLatest(history: seq<Entry>, article: nat, i: nat) {
    && i < |history| && Stores(history[i], article)
    && forall j | i < j < |history| :: !Stores(history[j], article)
  }

  lemma {:induction false} RowsAreLatest(history: seq<Entry>, barcode: string)
    requires Gs1Valid(DigitsOf(barcode))
    ensures var key, rows, article := ComparisonGtin(barcode).value, AfterAll(history), Number(DigitsOf(barcode));
      && (key !in rows ==> forall i | 0 <= i < |history| :: !Stores(history[i], article))
      && (key in rows ==> exists i: nat :: IsLatest(history, article, i) && rows[key] == RowOf(history[i]))
    decreases |history|
  {
    hide ComparisonGtin, Number, Mismatch, Gs1Valid, DigitsOf;
    if history != [] {
      var before, e := history[..|history| - 1], history[|history| - 1];
      RowsAreLatest(before, barcode);
      StoresItsKey(e, barcode);
      var key, rows, article := ComparisonGtin(barcode).value, AfterAll(history), Number(DigitsOf(barcode));
      if Stores(e, article) {
        assert IsLatest(history, article, |before|) && rows[key] == RowOf(e);
      } else {
        assert key in rows <==> key in AfterAll(before);
        if key in rows {
          var i: nat :| IsLatest(before, article, i) && AfterAll(before)[key] == RowOf(before[i]);
          assert IsLatest(history, article, i) && rows[key] == RowOf(history[i]);
        }
      }
    }
  }

  lemma OneLatest(history: seq<Entry>, article: nat)
    ensures forall i: nat, j: nat | IsLatest(history, article, i) && IsLatest(history, article, j) :: i == j
  {
  }

  function RowOf(e: Entry): Row {
    Row(e.candidate, e.now, e.now + e.ttl)
  }

  lemma StoresItsKey(e: Entry, barcode: string)
    requires Gs1Valid(DigitsOf(barcode))
    ensures WhyRefused(e).None? ==>
      (Stores(e, Number(DigitsOf(barcode))) <==> ComparisonGtin(e.barcode) == ComparisonGtin(barcode))
    ensures ComparisonGtin(barcode).Some? && (WhyRefused(e).None? ==> ComparisonGtin(e.barcode).Some?)
  {
    hide Number, DigitsOf, Mismatch, Checks, Padded;
    if WhyRefused(e).None? {
      SameKeyExactly(e.barcode, barcode);
    }
  }

  ghost predicate AllMatch(rows: Rows) {
    forall key | key in rows :: Mismatch(rows[key].candidate, key).None?
  }

  lemma {:induction false} HistoriesMatch(history: seq<Entry>)
    ensures AllMatch(AfterAll(history))
    decreases |history|
  {
    hide ComparisonGtin, Mismatch;
    if history != [] {
      HistoriesMatch(history[..|history| - 1]);
    }
  }

  /**
   Over any history a valid barcode is answered with the latest accepted put
   for the number it spells, whatever lengths the two were written in, and
   exactly while that put has not expired. A row never fails its own check.
   */
  lemma AnswersLatestUnexpired(history: seq<Entry>, barcode: string, now: int)
    ensures var article, a := Number(DigitsOf(barcode)), Read(AfterAll(history), barcode, now);
      && (a.Raised? <==> !Gs1Valid(DigitsOf(barcode))) && (a.Raised? ==> a.error == InvalidCheckDigit)
      && (a.Hit? ==> exists i: nat ::
         IsLatest(history, article, i) && a.row == RowOf(history[i]) && now < a.row.expiresAt)
      && (a.Miss? ==> forall i: nat | IsLatest(history, article, i) :: history[i].now + history[i].ttl <= now)
  {
    hide Number, DigitsOf, Mismatch, Checks, Padded;
    HistoriesMatch(history);
    if Gs1Valid(DigitsOf(barcode)) {
      RowsAreLatest(history, barcode);
      OneLatest(history, Number(DigitsOf(barcode)));
    }
  }
}
