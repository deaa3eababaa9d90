/** The simulated NAFDAC public registry: a JSON snapshot read on every lookup. */
module NafdacApi {
  import opened Wrappers

  /** A JSON object with string fields, as the snapshot stores one drug. */
  type Record = map<string, string>

  /** The snapshot: batch number to record. */
  type Snapshot = map<string, Record>

  /** An HTTP answer: status code and JSON body. */
  datatype Reply = Reply(status: int, body: Record)

  const NotFoundBody: Record := map["error" := "Drug not found in public registry"]

  /** load_public_db(): the parsed file, or {} when opening or parsing it raised (None). */
  function LoadPublicDb(loaded: Option<Snapshot>): (db: Snapshot)
    ensures loaded.None? ==> db == map[]
    ensures loaded.Some? ==> db == loaded.value
  {
    loaded.GetOr(map[])
  }

  /**
   * lookup_drug(batch_number): the record when the snapshot holds a non-empty (truthy) one
   * for exactly that batch, otherwise 404 with an error body. The snapshot is only read.
   */
  function LookupDrug(loaded: Option<Snapshot>, batchNumber: string): (r: Reply)
    ensures var db := LoadPublicDb(loaded);
      && (r.status == 200 <==> batchNumber in db && db[batchNumber] != map[])
      && (r.status == 200 ==> r.body == db[batchNumber])
      && (r.status != 200 ==> r == Reply(404, NotFoundBody))
  {
    var db := LoadPublicDb(loaded);
    var info := if batchNumber in db then db[batchNumber] else map[];
    if info != map[] then Reply(200, info) else Reply(404, NotFoundBody)
  }

  /** A snapshot that failed to load answers every lookup with 404. */
  lemma FailedLoadFindsNothing(batchNumber: string)
    ensures LookupDrug(None, batchNumber) == Reply(404, NotFoundBody)
  {
  }
}
