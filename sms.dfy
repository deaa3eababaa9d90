/**
 * The SMS webhook: the message body, stripped, is the batch number; the reply
 * is exactly one text message.
 */
module Sms {
  import opened Wrappers
  import opened Text
  import opened Dates
  import opened Drugs
  import Verify

  // Long string literals are split so that the verifier can read their first characters.
  const Prompt := "Please send " + "a batch number " + "to verify. " + "For example: BATCH12345"

  function NotFoundMessage(batch: string): string {
    "MedGuard: Batch '" + batch + "' not found. " + "This drug may be " + "counterfeit. " + "Please report it."
  }

  function ExpiredMessage(batch: string, row: Drug): string {
    "MedGuard ALERT: Batch '" + batch + "' (" + row.name + ") has EXPIRED on " + row.expiryDate + "."
  }

  function OkMessage(batch: string, row: Drug): string {
    "MedGuard OK: Batch '" + batch + "' is a valid " + "batch of " + row.name + " from " + row.manufacturer
      + ". Expires " + row.expiryDate + "."
  }

  function DateErrorMessage(batch: string): string {
    "MedGuard: " + "Could not verify " + "expiry date for batch '" + batch + "'."
  }

  /**
   * sms_reply(): `body` is the form's Body field (None when absent, read as ""). The reply
   * holds one message: the prompt for an empty batch, otherwise the verdict on the batch.
   */
  function SmsReply(registry: Registry, today: Date, body: Option<string>): (messages: seq<string>)
    ensures |messages| == 1
    ensures var batch := Strip(body.GetOr(""));
      && (messages[0] == Prompt <==> batch == [])
      && (batch != [] && batch !in registry ==> messages[0] == NotFoundMessage(batch))
      && (batch != [] && batch in registry && ParseDate(registry[batch].expiryDate).None? ==> messages[0] == DateErrorMessage(batch))
      && (batch != [] && batch in registry && ParseDate(registry[batch].expiryDate).Some? ==>
            messages[0] == if Before(ParseDate(registry[batch].expiryDate).value, today)
                           then ExpiredMessage(batch, registry[batch])
                           else OkMessage(batch, registry[batch]))
  {
    var batch := Strip(body.GetOr(""));
    if batch == [] then [Prompt]
    else if batch !in registry then
      PromptIsNoVerdict(batch, Drug("", "", "", "", ""));
      [NotFoundMessage(batch)]
    else
      var row := registry[batch];
      PromptIsNoVerdict(batch, row);
      match ParseDate(row.expiryDate)
      case None => [DateErrorMessage(batch)]
      case Some(expiry) => [if Before(expiry, today) then ExpiredMessage(batch, row) else OkMessage(batch, row)]
  }

  /**
   * For a non-empty batch held locally the SMS channel and the scan route agree: the SMS reply is the OK
   * text exactly when the scan says valid, the ALERT text exactly when it says expired, and
   * the date-error text exactly when the scan reports the date error.
   */
  lemma AgreesWithScan(registry: Registry, publicLookup: string -> Verify.PublicOutcome, today: Date, body: string)
    requires Strip(body) != [] && Strip(body) in registry
    ensures var batch, m, v := Strip(body), SmsReply(registry, today, Some(body))[0],
                               Verify.VerifySmartScan(registry, publicLookup, today, body);
      && (v.Valid? <==> m == OkMessage(batch, registry[batch]))
      && (v.Expired? <==> m == ExpiredMessage(batch, registry[batch]))
      && (v.DateError? <==> m == DateErrorMessage(batch))
  {
    var batch, row := Strip(body), registry[Strip(body)];
    OkNotExpired(batch, row);
    OkNotDateError(batch, row);
    ExpiredNotDateError(batch, row);
  }

  /** The prompt begins with 'P', every verdict text with "MedGuard". */
  lemma PromptIsNoVerdict(batch: string, row: Drug)
    ensures Prompt != NotFoundMessage(batch) && Prompt != ExpiredMessage(batch, row)
    ensures Prompt != OkMessage(batch, row) && Prompt != DateErrorMessage(batch)
  {
    assert Prompt[0] == 'P';
    assert NotFoundMessage(batch)[0] == 'M' && ExpiredMessage(batch, row)[0] == 'M';
    assert OkMessage(batch, row)[0] == 'M' && DateErrorMessage(batch)[0] == 'M';
  }

  lemma OkNotExpired(batch: string, row: Drug)
    ensures OkMessage(batch, row) != ExpiredMessage(batch, row)
  {
    assert OkMessage(batch, row)[9] == 'O';
    assert ExpiredMessage(batch, row)[9] == 'A';
  }

  lemma OkNotDateError(batch: string, row: Drug)
    ensures OkMessage(batch, row) != DateErrorMessage(batch)
  {
    assert OkMessage(batch, row)[9] == 'O';
    assert DateErrorMessage(batch)[9] == ' ';
  }

  lemma ExpiredNotDateError(batch: string, row: Drug)
    ensures ExpiredMessage(batch, row) != DateErrorMessage(batch)
  {
    assert ExpiredMessage(batch, row)[9] == 'A';
    assert DateErrorMessage(batch)[9] == ' ';
  }

  /** A missing Body field is answered exactly like an empty one: with the prompt. */
  lemma MissingBodyPrompts(registry: Registry, today: Date)
    ensures SmsReply(registry, today, None) == [Prompt]
    ensures SmsReply(registry, today, Some("")) == [Prompt]
  {
    assert Strip("") == [];
  }
}
