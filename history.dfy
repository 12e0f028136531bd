/**
 * The persisted keyword history (the `keyword_history` table of app/models.py plus the
 * `gsc_date` column that app/main.py and app/save_data.py rely on), the store that holds
 * it, and the two operations every query over it is built from: selecting the records
 * that satisfy a predicate and ordering records by `gsc_date`.
 */
module History {
  import opened Common

  /** One row of `keyword_history`. The labels hold whatever value was stored. */
  datatype Record = Record(
    id: nat,
    keyword: string,
    intent: Json,
    format: Json,
    clicks: int,
    impressions: int,
    ctr: real,
    position: real,
    createdAt: Timestamp,
    gscDate: Date)

  /** Some record observes `keyword` on `date` (the `filter_by(...).first()` lookup). */
  predicate Stored(records: seq<Record>, keyword: string, date: Date) {
    exists i | 0 <= i < |records| :: records[i].keyword == keyword && records[i].gscDate == date
  }

  /** At most one record per (keyword, gsc_date) pair. */
  ghost predicate UniqueKeys(records: seq<Record>) {
    forall i, j :: 0 <= i < j < |records| ==>
      records[i].keyword != records[j].keyword || records[i].gscDate != records[j].gscDate
  }

  /** Surrogate ids are pairwise distinct and all below the next id to hand out. */
  ghost predicate IdsFresh(records: seq<Record>, nextId: nat) {
    && (forall i :: 0 <= i < |records| ==> records[i].id < nextId)
    && (forall i, j :: 0 <= i < j < |records| ==> records[i].id != records[j].id)
  }

  /**
   * The committed contents of the table.  `nextId` is the autoincrement counter of the
   * primary key.  No part of the core deletes rows.
   */
  class HistoryDb {
    var records: seq<Record>
    var nextId: nat

    ghost predicate Valid()
      reads this
    {
      IdsFresh(records, nextId)
    }

    constructor ()
      ensures Valid() && records == [] && nextId == 1
    {
      records := [];
      nextId := 1;
    }
  }

  lemma {:induction false} StoredAppend(a: seq<Record>, b: seq<Record>, keyword: string, date: Date)
    requires Stored(a, keyword, date)
    ensures Stored(a + b, keyword, date)
  {
    var i :| 0 <= i < |a| && a[i].keyword == keyword && a[i].gscDate == date;
    assert (a + b)[i] == a[i];
  }

  /** The records of `s` that satisfy `p`, in their order (a SQL `WHERE`). */
  function Where(s: seq<Record>, p: Record -> bool): (r: seq<Record>)
    ensures forall x :: multiset(r)[x] == if p(x) then multiset(s)[x] else 0
    ensures |r| <= |s|
  {
    if s == [] then []
    else
      assert s == [s[0]] + s[1..];
      (if p(s[0]) then [s[0]] else []) + Where(s[1..], p)
  }

  /** `a` comes no later than `b` in `ORDER BY gsc_date DESC` (newestFirst) or `ASC`. */
  predicate InOrder(a: Record, b: Record, newestFirst: bool) {
    if newestFirst then a.gscDate >= b.gscDate else a.gscDate <= b.gscDate
  }

  predicate SortedByDate(s: seq<Record>, newestFirst: bool) {
    forall i, j :: 0 <= i < j < |s| ==> InOrder(s[i], s[j], newestFirst)
  }

  lemma HeadFirst(s: seq<Record>, y: Record, newestFirst: bool)
    requires SortedByDate(s, newestFirst) && y in s
    ensures InOrder(s[0], y, newestFirst)
  {
  }

  lemma ConsSorted(y: Record, s: seq<Record>, newestFirst: bool)
    requires SortedByDate(s, newestFirst)
    requires forall k :: 0 <= k < |s| ==> InOrder(y, s[k], newestFirst)
    ensures SortedByDate([y] + s, newestFirst)
  {
  }

  function InsertByDate(x: Record, s: seq<Record>, newestFirst: bool): (r: seq<Record>)
    requires SortedByDate(s, newestFirst)
    ensures multiset(r) == multiset(s) + multiset{x}
    ensures forall k :: 0 <= k < |r| ==> r[k] == x || r[k] in s
    ensures SortedByDate(r, newestFirst)
    decreases |s|
  {
    if s == [] then [x]
    else if InOrder(x, s[0], newestFirst) then
      assert forall k :: 0 <= k < |s| ==> InOrder(x, s[k], newestFirst) by {
        forall k | 0 <= k < |s| ensures InOrder(x, s[k], newestFirst) { HeadFirst(s, s[k], newestFirst); }
      }
      ConsSorted(x, s, newestFirst);
      [x] + s
    else
      assert s == [s[0]] + s[1..];
      var rest := InsertByDate(x, s[1..], newestFirst);
      assert forall k :: 0 <= k < |rest| ==> InOrder(s[0], rest[k], newestFirst) by {
        forall k | 0 <= k < |rest| ensures InOrder(s[0], rest[k], newestFirst) {
          if rest[k] != x { HeadFirst(s, rest[k], newestFirst); }
        }
      }
      ConsSorted(s[0], rest, newestFirst);
      [s[0]] + rest
  }

  /**
   * `ORDER BY gsc_date`: a permutation of `s` ordered by date.  The database leaves
   * the order of equal dates unspecified; this definition fixes one, and nothing
   * stated about the queries depends on it.
   */
  function SortByDate(s: seq<Record>, newestFirst: bool): (r: seq<Record>)
    ensures multiset(r) == multiset(s)
    ensures SortedByDate(r, newestFirst)
  {
    if s == [] then []
    else
      assert s == [s[0]] + s[1..];
      InsertByDate(s[0], SortByDate(s[1..], newestFirst), newestFirst)
  }
}
