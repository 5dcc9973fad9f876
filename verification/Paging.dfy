/**
 How prisma/sync-perf-order-rollups.ts reads orders: batches of the selected rows in order of id, each behind the last
 id of the one before.
 */
module Paging {
  import opened Prelude

  const BATCH := 2000

  predicate ById<T>(rows: seq<T>, id: T -> nat) {
    forall i, j | 0 <= i < j < |rows| :: id(rows[i]) < id(rows[j])
  }

  function After<T>(rows: seq<T>, id: T -> nat, cursor: Option<nat>): seq<T> {
    if cursor.None? || rows == [] || id(rows[0]) > cursor.value then rows else After(rows[1..], id, cursor)
  }

  // One `findMany`: up to a batch of the selected rows behind the cursor.
  function Page<T>(rows: seq<T>, id: T -> nat, cursor: Option<nat>): seq<T> {
    var rest := After(rows, id, cursor);
    rest[..Min(BATCH, |rest|)]
  }

  lemma {:induction false} AfterCursor<T>(rows: seq<T>, id: T -> nat, k: nat)
    requires ById(rows, id) && k < |rows|
    ensures After(rows, id, Some(id(rows[k]))) == rows[k + 1..]
  {
    if k == 0 {
      if |rows| > 1 {
        assert rows[1..][0] == rows[1];
      }
    } else {
      AfterCursor(rows[1..], id, k - 1);
    }
  }

  // The page read behind the first `scanned` rows is the next batch of them, and is empty only at the end.
  method FindMany<T>(rows: seq<T>, id: T -> nat, cursor: Option<nat>, ghost scanned: nat) returns (page: seq<T>)
    requires ById(rows, id) && scanned <= |rows|
    requires cursor == if scanned == 0 then None else Some(id(rows[scanned - 1]))
    ensures |page| == Min(BATCH, |rows| - scanned)
    ensures page == rows[scanned..scanned + |page|]
  {
    if scanned > 0 {
      AfterCursor(rows, id, scanned - 1);
    }
    assert After(rows, id, cursor) == rows[scanned..];
    page := Page(rows, id, cursor);
  }
}
