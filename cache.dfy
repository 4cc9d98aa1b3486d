/**
 * The recipe detail cache: the `recipe_cache` table, one row per recipe id
 * holding the fetched document and the time it was cached, and the 24-hour
 * freshness rule applied when a row is read back.
 */
module RecipeCache {
  import opened Wrappers
  import opened Recipes

  /** 24 hours in milliseconds. */
  const DAY_MS: int := 24 * 60 * 60 * 1000

  /** A row: `data` (the JSON document) and `cached_at`. */
  datatype Row = Row(data: RecipeDoc, cachedAt: int)

  /** The table, keyed by the unique `recipe_id`. */
  type Table = map<int, Row>

  /** `now - cachedTime < 24 * 60 * 60 * 1000`: a row is served while strictly younger than a day. */
  predicate Fresh(row: Row, nowMs: int) {
    nowMs - row.cachedAt < DAY_MS
  }

  /** The cached document that a read at `nowMs` would serve, if any. */
  function Lookup(t: Table, id: int, nowMs: int): (r: Option<RecipeDoc>)
    ensures r.Some? <==> id in t && Fresh(t[id], nowMs)
    ensures r.Some? ==> r.value == t[id].data
  {
    if id in t && Fresh(t[id], nowMs) then Some(t[id].data) else None
  }

  /**
   * `INSERT ... ON DUPLICATE KEY UPDATE data = ?, cached_at = CURRENT_TIMESTAMP`:
   * one row for the id, holding the new document and the write time; every
   * other row is unchanged.
   */
  function Upsert(t: Table, id: int, doc: RecipeDoc, nowMs: int): (t': Table)
    ensures t'.Keys == t.Keys + {id}
    ensures t'[id] == Row(doc, nowMs)
    ensures forall k :: k in t && k != id ==> t'[k] == t[k]
  {
    t[id := Row(doc, nowMs)]
  }

  /** After an upsert at `writtenMs`, a read at `readMs` serves the new document exactly while less than a day has passed. */
  lemma LookupAfterUpsert(t: Table, id: int, doc: RecipeDoc, writtenMs: int, readMs: int)
    ensures Lookup(Upsert(t, id, doc, writtenMs), id, readMs) ==
            if readMs - writtenMs < DAY_MS then Some(doc) else None
  {
  }

  /** An upsert does not change what a read of another recipe serves. */
  lemma LookupOtherAfterUpsert(t: Table, id: int, doc: RecipeDoc, writtenMs: int, other: int, readMs: int)
    requires other != id
    ensures Lookup(Upsert(t, id, doc, writtenMs), other, readMs) == Lookup(t, other, readMs)
  {
  }

  /** Writing the same document twice at the same time is the same as writing it once (the cold-miss race is harmless). */
  lemma UpsertIdempotent(t: Table, id: int, doc: RecipeDoc, nowMs: int)
    ensures Upsert(Upsert(t, id, doc, nowMs), id, doc, nowMs) == Upsert(t, id, doc, nowMs)
  {
  }

  /** Once a row is stale it stays stale as the clock advances, until it is overwritten. */
  lemma StaleStaysStale(t: Table, id: int, nowMs: int, laterMs: int)
    requires Lookup(t, id, nowMs).None?
    requires nowMs <= laterMs
    ensures Lookup(t, id, laterMs).None?
  {
  }
}
