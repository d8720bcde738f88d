/**
 * The Room tables behind data/dao/SmallCaptureDao.kt and
 * data/dao/PreviousCaptureDao.kt. A table is its rows in insertion order
 * plus the next value of its AUTOINCREMENT key; the queries are read as the
 * SQL they annotate. The `Flow` wrappers (re-emission on change) are not
 * modelled: a query is its current answer.
 */
module Daos {
  import opened Wrappers
  import opened Sorting
  import opened Entities

  /** The rows have pairwise distinct ids. */
  predicate DistinctIds<T>(rows: seq<T>, idOf: T -> int) {
    forall i, j :: 0 <= i < j < |rows| ==> idOf(rows[i]) != idOf(rows[j])
  }

  /** `WHERE id = :id` on a single row: the row with that id, or null. */
  function Find<T>(rows: seq<T>, idOf: T -> int, id: int): (r: Option<T>)
    ensures r.Some? ==> r.value in rows && idOf(r.value) == id
    ensures r.None? <==> forall i :: 0 <= i < |rows| ==> idOf(rows[i]) != id
    decreases |rows|
  {
    if rows == [] then None
    else if idOf(rows[0]) == id then Some(rows[0])
    else
      var r := Find(rows[1..], idOf, id);
      assert forall i :: 1 <= i < |rows| ==> rows[i] == rows[1..][i - 1];
      r
  }

  /** With distinct ids, the row found for an id is the one that has it. */
  lemma {:induction false} FindUnique<T>(rows: seq<T>, idOf: T -> int, k: nat)
    requires DistinctIds(rows, idOf) && k < |rows|
    ensures Find(rows, idOf, idOf(rows[k])) == Some(rows[k])
    decreases k
  {
    if k > 0 {
      assert idOf(rows[0]) != idOf(rows[k]);
      assert rows[1..][k - 1] == rows[k];
      FindUnique(rows[1..], idOf, k - 1);
    }
  }

  /** `DELETE ... WHERE id = :id`: the rows without that id, in their order. */
  function RemoveId<T(!new)>(rows: seq<T>, idOf: T -> int, id: int): (r: seq<T>)
    ensures |r| <= |rows|
    ensures forall x :: x in r <==> x in rows && idOf(x) != id
    decreases |rows|
  {
    if rows == [] then []
    else
      assert forall x :: x in rows <==> x == rows[0] || x in rows[1..];
      if idOf(rows[0]) == id then RemoveId(rows[1..], idOf, id)
      else [rows[0]] + RemoveId(rows[1..], idOf, id)
  }

  /** Deleting an id no row has changes nothing. */
  lemma {:induction false} RemoveAbsent<T(!new)>(rows: seq<T>, idOf: T -> int, id: int)
    requires Find(rows, idOf, id).None?
    ensures RemoveId(rows, idOf, id) == rows
    decreases |rows|
  {
    if rows != [] {
      assert forall i :: 0 <= i < |rows[1..]| ==> rows[1..][i] == rows[i + 1];
      RemoveAbsent(rows[1..], idOf, id);
    }
  }

  /** Deleting a present id removes exactly one row when ids are distinct, and keeps the ids distinct. */
  lemma {:induction false} RemovePresent<T(!new)>(rows: seq<T>, idOf: T -> int, id: int)
    requires DistinctIds(rows, idOf)
    ensures DistinctIds(RemoveId(rows, idOf, id), idOf)
    ensures Find(rows, idOf, id).Some? ==> |RemoveId(rows, idOf, id)| == |rows| - 1
    ensures Find(RemoveId(rows, idOf, id), idOf, id).None?
    decreases |rows|
  {
    if rows != [] {
      var tail := rows[1..];
      assert DistinctIds(tail, idOf) by {
        forall i, j | 0 <= i < j < |tail| ensures idOf(tail[i]) != idOf(tail[j]) {
          assert tail[i] == rows[i + 1] && tail[j] == rows[j + 1];
        }
      }
      RemovePresent(tail, idOf, id);
      var rest := RemoveId(tail, idOf, id);
      if idOf(rows[0]) == id {
        forall i | 0 <= i < |tail| ensures idOf(tail[i]) != id {
          assert tail[i] == rows[i + 1];
        }
        RemoveAbsent(tail, idOf, id);
      } else {
        forall j | 0 <= j < |rest| ensures idOf(rows[0]) != idOf(rest[j]) {
          assert rest[j] in tail;
          var k :| 0 <= k < |tail| && tail[k] == rest[j];
          assert rows[k + 1] == rest[j];
        }
        var r := [rows[0]] + rest;
        assert forall j :: 1 <= j < |r| ==> r[j] == rest[j - 1];
        if Find(rows, idOf, id).Some? {
          assert Find(rows, idOf, id) == Find(tail, idOf, id);
        }
      }
    }
  }

  /** The rows with the one that has `id` replaced by `update` of it, which keeps that id. */
  function ReplaceId<T(!new)>(rows: seq<T>, idOf: T -> int, id: int, update: T -> T): (r: seq<T>)
    requires forall x :: idOf(x) == id ==> idOf(update(x)) == id
    ensures |r| == |rows|
    ensures forall i :: 0 <= i < |rows| ==> idOf(r[i]) == idOf(rows[i])
    ensures forall i :: 0 <= i < |rows| && idOf(rows[i]) != id ==> r[i] == rows[i]
    ensures forall i :: 0 <= i < |rows| && idOf(rows[i]) == id ==> r[i] == update(rows[i])
  {
    seq(|rows|, i requires 0 <= i < |rows| => if idOf(rows[i]) == id then update(rows[i]) else rows[i])
  }

  /** After a replacement, the row found for the id is the replacement of the row found before. */
  lemma {:induction false} FindReplaced<T(!new)>(rows: seq<T>, idOf: T -> int, id: int, update: T -> T)
    requires forall x :: idOf(x) == id ==> idOf(update(x)) == id
    ensures var before := Find(rows, idOf, id);
      Find(ReplaceId(rows, idOf, id, update), idOf, id) == if before.Some? then Some(update(before.value)) else None
    decreases |rows|
  {
    if rows != [] {
      var r := ReplaceId(rows, idOf, id, update);
      if idOf(rows[0]) != id {
        FindReplaced(rows[1..], idOf, id, update);
        assert r[1..] == ReplaceId(rows[1..], idOf, id, update);
      }
    }
  }

  /** `ORDER BY createdAt DESC LIMIT :limit`; SQLite reads a negative limit as no limit. */
  function Limit<T>(ordered: seq<T>, limit: int): (r: seq<T>)
    ensures |r| == (if limit < 0 || limit >= |ordered| then |ordered| else limit)
    ensures r == ordered[..|r|]
  {
    if limit < 0 || limit >= |ordered| then ordered else ordered[..limit]
  }

  /** A capture given an analysis and its source language. */
  function WithAnalysis(analysis: string, sourceLanguage: string): SmallCapture -> SmallCapture {
    (c: SmallCapture) => c.(analysis := Some(analysis), sourceLanguage := Some(sourceLanguage))
  }

  /** A page given new stored boxes. */
  function WithTextBoxes(textBoxesJson: JsonText): PreviousCapture -> PreviousCapture {
    (c: PreviousCapture) => c.(textBoxesJson := textBoxesJson)
  }

  /** What a failed insert reports: the row's explicit id is already taken. */
  datatype DaoError = ConstraintViolation(id: int)

  function SmallId(c: SmallCapture): int { c.id }
  function SmallCreatedAt(c: SmallCapture): int { c.createdAt }

  /** The `small_captures` table. */
  class SmallCaptureDao {
    var rows: seq<SmallCapture>
    var nextId: int

    ghost predicate Valid()
      reads this
    {
      && DistinctIds(rows, SmallId)
      && nextId >= 1
      && forall i :: 0 <= i < |rows| ==> rows[i].id < nextId
    }

    constructor ()
      ensures Valid() && rows == [] && nextId == 1
    {
      rows := [];
      nextId := 1;
    }

    /** `getAllSmallCaptures`: every row, newest first. */
    function All(): (r: seq<SmallCapture>)
      reads this
      ensures multiset(r) == multiset(rows)
      ensures SortedDescBy(r, SmallCreatedAt)
    {
      SortDescBy(rows, SmallCreatedAt)
    }

    /** `getRecentSmallCaptures(limit)`: the first `limit` rows of `All()`. */
    function Recent(limit: int): (r: seq<SmallCapture>)
      reads this
      ensures 0 <= limit <= |rows| ==> |r| == limit
      ensures limit < 0 || limit > |rows| ==> |r| == |rows|
      ensures r == All()[..|r|]
    {
      PermutationFacts(All(), rows);
      Limit(All(), limit)
    }

    /** `getSmallCaptureById(id)`. */
    function ById(id: int): (r: Option<SmallCapture>)
      reads this
      ensures r.Some? ==> r.value in rows && r.value.id == id
      ensures r.None? <==> forall i :: 0 <= i < |rows| ==> rows[i].id != id
    {
      Find(rows, SmallId, id)
    }

    /**
     * `insert`: a row with id 0 gets the next key; a row with an explicit id
     * is stored under it, unless that id is taken.
     */
    method Insert(capture: SmallCapture) returns (r: Result<int, DaoError>)
      requires Valid()
      modifies this
      ensures Valid()
      ensures capture.id == 0 ==> r == Success(old(nextId))
      ensures capture.id != 0 ==> (r.Failure? <==> Find(old(rows), SmallId, capture.id).Some?)
      ensures r.Success? ==> rows == old(rows) + [capture.(id := r.value)] && ById(r.value) == Some(capture.(id := r.value))
      ensures r.Success? ==> nextId == (if r.value + 1 > old(nextId) then r.value + 1 else old(nextId))
      ensures r.Failure? ==> rows == old(rows) && nextId == old(nextId)
    {
      var id := if capture.id == 0 then nextId else capture.id;
      if capture.id != 0 && Find(rows, SmallId, id).Some? {
        return Failure(ConstraintViolation(id));
      }
      var stored := capture.(id := id);
      rows := rows + [stored];
      nextId := if id + 1 > nextId then id + 1 else nextId;
      FindUnique(rows, SmallId, |rows| - 1);
      r := Success(id);
    }

    /** `update`: the row with the same id becomes `capture`; no such row, no change. */
    method Update(capture: SmallCapture)
      requires Valid()
      modifies this
      ensures Valid() && nextId == old(nextId)
      ensures rows == ReplaceId(old(rows), SmallId, capture.id, (_: SmallCapture) => capture)
    {
      rows := ReplaceId(rows, SmallId, capture.id, (_: SmallCapture) => capture);
    }

    /** `deleteById` (and `delete`, which matches on the id only). */
    method DeleteById(id: int)
      requires Valid()
      modifies this
      ensures Valid() && nextId == old(nextId)
      ensures rows == RemoveId(old(rows), SmallId, id)
      ensures ById(id).None?
      ensures old(ById(id)).None? ==> rows == old(rows)
      ensures old(ById(id)).Some? ==> |rows| == |old(rows)| - 1
    {
      RemovePresent(rows, SmallId, id);
      if Find(rows, SmallId, id).None? {
        RemoveAbsent(rows, SmallId, id);
      }
      rows := RemoveId(rows, SmallId, id);
    }

    /** `updateAnalysis`: set the analysis and its source language of one row. */
    method UpdateAnalysis(id: int, analysis: string, sourceLanguage: string)
      requires Valid()
      modifies this
      ensures Valid() && nextId == old(nextId)
      ensures rows == ReplaceId(old(rows), SmallId, id,
                                WithAnalysis(analysis, sourceLanguage))
    {
      rows := ReplaceId(rows, SmallId, id,
                        WithAnalysis(analysis, sourceLanguage));
    }
  }

  function PreviousId(c: PreviousCapture): int { c.id }
  function PreviousCreatedAt(c: PreviousCapture): int { c.createdAt }

  /** The `previous_captures` table. */
  class PreviousCaptureDao {
    var rows: seq<PreviousCapture>
    var nextId: int

    ghost predicate Valid()
      reads this
    {
      && DistinctIds(rows, PreviousId)
      && nextId >= 1
      && forall i :: 0 <= i < |rows| ==> rows[i].id < nextId
    }

    constructor ()
      ensures Valid() && rows == [] && nextId == 1
    {
      rows := [];
      nextId := 1;
    }

    /** `getAllPreviousCaptures`: every row, newest first. */
    function All(): (r: seq<PreviousCapture>)
      reads this
      ensures multiset(r) == multiset(rows)
      ensures SortedDescBy(r, PreviousCreatedAt)
    {
      SortDescBy(rows, PreviousCreatedAt)
    }

    /** `getRecentPreviousCaptures(limit)`: the first `limit` rows of `All()`. */
    function Recent(limit: int): (r: seq<PreviousCapture>)
      reads this
      ensures 0 <= limit <= |rows| ==> |r| == limit
      ensures limit < 0 || limit > |rows| ==> |r| == |rows|
      ensures r == All()[..|r|]
    {
      PermutationFacts(All(), rows);
      Limit(All(), limit)
    }

    /** `getPreviousCaptureById(id)`. */
    function ById(id: int): (r: Option<PreviousCapture>)
      reads this
      ensures r.Some? ==> r.value in rows && r.value.id == id
      ensures r.None? <==> forall i :: 0 <= i < |rows| ==> rows[i].id != id
    {
      Find(rows, PreviousId, id)
    }

    /**
     * `insert`: a row with id 0 gets the next key; a row with an explicit id
     * is stored under it, unless that id is taken.
     */
    method Insert(capture: PreviousCapture) returns (r: Result<int, DaoError>)
      requires Valid()
      modifies this
      ensures Valid()
      ensures capture.id == 0 ==> r == Success(old(nextId))
      ensures capture.id != 0 ==> (r.Failure? <==> Find(old(rows), PreviousId, capture.id).Some?)
      ensures r.Success? ==> rows == old(rows) + [capture.(id := r.value)] && ById(r.value) == Some(capture.(id := r.value))
      ensures r.Success? ==> nextId == (if r.value + 1 > old(nextId) then r.value + 1 else old(nextId))
      ensures r.Failure? ==> rows == old(rows) && nextId == old(nextId)
    {
      var id := if capture.id == 0 then nextId else capture.id;
      if capture.id != 0 && Find(rows, PreviousId, id).Some? {
        return Failure(ConstraintViolation(id));
      }
      var stored := capture.(id := id);
      rows := rows + [stored];
      nextId := if id + 1 > nextId then id + 1 else nextId;
      FindUnique(rows, PreviousId, |rows| - 1);
      r := Success(id);
    }

    /** `update`: the row with the same id becomes `capture`; no such row, no change. */
    method Update(capture: PreviousCapture)
      requires Valid()
      modifies this
      ensures Valid() && nextId == old(nextId)
      ensures rows == ReplaceId(old(rows), PreviousId, capture.id, (_: PreviousCapture) => capture)
    {
      rows := ReplaceId(rows, PreviousId, capture.id, (_: PreviousCapture) => capture);
    }

    /** `deleteById` (and `delete`, which matches on the id only). */
    method DeleteById(id: int)
      requires Valid()
      modifies this
      ensures Valid() && nextId == old(nextId)
      ensures rows == RemoveId(old(rows), PreviousId, id)
      ensures ById(id).None?
      ensures old(ById(id)).None? ==> rows == old(rows)
      ensures old(ById(id)).Some? ==> |rows| == |old(rows)| - 1
    {
      RemovePresent(rows, PreviousId, id);
      if Find(rows, PreviousId, id).None? {
        RemoveAbsent(rows, PreviousId, id);
      }
      rows := RemoveId(rows, PreviousId, id);
    }

    /** `updateTextBoxes`: replace the stored boxes of one row, nothing else. */
    method UpdateTextBoxes(id: int, textBoxesJson: JsonText)
      requires Valid()
      modifies this
      ensures Valid() && nextId == old(nextId)
      ensures rows == ReplaceId(old(rows), PreviousId, id, WithTextBoxes(textBoxesJson))
    {
      rows := ReplaceId(rows, PreviousId, id, WithTextBoxes(textBoxesJson));
    }
  }
}
