/** The `drugs` table: one row per registered batch, batch_number UNIQUE. */
module Drugs {

  /** The columns verify.py and sms.py select from a drugs row. */
  datatype Drug = Drug(name: string, batchNumber: string, mfgDate: string, expiryDate: string, manufacturer: string)

  /** The drugs table looked up by its UNIQUE batch_number column (`WHERE batch_number = ?`
      is an exact, case-sensitive match). */
  type Registry = map<string, Drug>
}
