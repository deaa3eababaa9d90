/** The EMDEX resolver, a stub that knows one batch. */
module Emdex {
  import opened Wrappers
  import opened NafdacApi

  const SimulatedBatch := "SAM-0808"

  const SimulatedRecord: Record := map[
    "drug_name" := "Ibuprofen 200mg (from EMDEX simulation)",
    "manufacturer" := "HealthWell Inc.",
    "status" := "Registered",
    "details" := "This is a simulated response for a valid drug."
  ]

  /** get_drug_info_from_emdex(api_key, batch_number): the fixed record for exactly
      "SAM-0808" (case-sensitive), None for every other batch; the key is never used. */
  function GetDrugInfoFromEmdex(apiKey: string, batchNumber: string): (r: Option<Record>)
    ensures r.Some? <==> batchNumber == SimulatedBatch
    ensures r.Some? ==> r.value.Keys == {"drug_name", "manufacturer", "status", "details"}
    ensures r.Some? ==> r.value["status"] == "Registered" && r.value["manufacturer"] == "HealthWell Inc."
  {
    if batchNumber == SimulatedBatch then Some(SimulatedRecord) else None
  }

  /** The answer does not depend on the API key. */
  lemma IgnoresApiKey(key1: string, key2: string, batchNumber: string)
    ensures GetDrugInfoFromEmdex(key1, batchNumber) == GetDrugInfoFromEmdex(key2, batchNumber)
  {
  }

  /** Matching is exact: the lower-case spelling is unknown. */
  lemma CaseSensitive(apiKey: string)
    ensures GetDrugInfoFromEmdex(apiKey, "sam-0808") == None
  {
  }
}
