/**
 * The smart-scan verification route: the scanned text is stripped once and
 * resolved, in strict order, against the local drugs registry (with an
 * expiry check), the simulated public registry, and a web-address test.
 */
module Verify {
  import opened Wrappers
  import opened Text
  import opened Dates
  import opened Drugs
  import NafdacApi

  /** How the HTTP request to the simulated public registry ended: an answer, or a
      requests exception (connection error, timeout, undecodable JSON). */
  datatype PublicOutcome = Replied(reply: NafdacApi.Reply) | RequestFailed

  /** The verdict rendered into verify.html, one variant per return statement. */
  datatype Verdict =
    | Valid(batch: Drug)
    | Expired(batch: Drug)
    | DateError(error: string)
    | PublicInfoFound(publicData: NafdacApi.Record)
    | ExternalUrl(externalUrl: string)
    | NotFound(scannedContent: string)
  {
    /** The template's `status` value. */
    function Status(): string {
      match this
      case Valid(_) => "valid"
      case Expired(_) => "expired"
      case DateError(_) => "notfound"
      case PublicInfoFound(_) => "public_info_found"
      case ExternalUrl(_) => "external_url"
      case NotFound(_) => "notfound"
    }
  }

  const ExpiryParseError := "Could not parse expiry date."

  /** The public registry answered with status 200. */
  predicate Answered(o: PublicOutcome) {
    o.Replied? && o.reply.status == 200
  }

  /** data.lower() starts with "http://" or "https://". */
  predicate IsWebAddress(data: string) {
    var low := Lower(data);
    StartsWith(low, "http://") || StartsWith(low, "https://")
  }

  /**
   * verify_smart_scan(scanned_data). A local match decides the verdict alone (valid, expired,
   * or the date error when its expiry does not parse); only without one is the public
   * registry asked, and only when that also fails is the text classified.
   */
  function VerifySmartScan(registry: Registry, publicLookup: string -> PublicOutcome, today: Date, scannedData: string): (v: Verdict)
    ensures var data := Strip(scannedData);
      && ((v.Valid? || v.Expired? || v.DateError?) <==> data in registry)
      && (v.Valid? || v.Expired? ==> v.batch == registry[data])
      && (v.Valid? <==> data in registry && ParseDate(registry[data].expiryDate).Some?
                        && !Before(ParseDate(registry[data].expiryDate).value, today))
      && (v.Expired? <==> data in registry && ParseDate(registry[data].expiryDate).Some?
                          && Before(ParseDate(registry[data].expiryDate).value, today))
      && (v.DateError? ==> v.error == ExpiryParseError)
      && (v.PublicInfoFound? <==> data !in registry && Answered(publicLookup(data)))
      && (v.PublicInfoFound? ==> v.publicData == publicLookup(data).reply.body)
      && (v.ExternalUrl? <==> data !in registry && !Answered(publicLookup(data)) && IsWebAddress(data))
      && (v.ExternalUrl? ==> v.externalUrl == data)
      && (v.NotFound? <==> data !in registry && !Answered(publicLookup(data)) && !IsWebAddress(data))
      && (v.NotFound? ==> v.scannedContent == data)
  {
    var data := Strip(scannedData);
    if data in registry then
      var row := registry[data];
      match ParseDate(row.expiryDate)
      case Some(expiry) => if Before(expiry, today) then Expired(row) else Valid(row)
      case None => DateError(ExpiryParseError)
    else if Answered(publicLookup(data)) then
      PublicInfoFound(publicLookup(data).reply.body)
    else if IsWebAddress(data) then
      ExternalUrl(data)
    else
      NotFound(data)
  }

  /** The raw text is only ever used stripped: stripping it beforehand changes nothing. */
  lemma UsesStrippedInput(registry: Registry, publicLookup: string -> PublicOutcome, today: Date, scannedData: string)
    ensures VerifySmartScan(registry, publicLookup, today, Strip(scannedData))
         == VerifySmartScan(registry, publicLookup, today, scannedData)
  {
    StripIdempotent(scannedData);
  }

  /** With a local match the public registry is never consulted: any two public services
      give the same verdict, and it is never public_info_found or external_url. */
  lemma LocalMatchIgnoresPublic(registry: Registry, lookup1: string -> PublicOutcome, lookup2: string -> PublicOutcome,
                                today: Date, scannedData: string)
    requires Strip(scannedData) in registry
    ensures VerifySmartScan(registry, lookup1, today, scannedData) == VerifySmartScan(registry, lookup2, today, scannedData)
    ensures VerifySmartScan(registry, lookup1, today, scannedData).Status() in {"valid", "expired", "notfound"}
  {
  }

  /** A batch whose expiry is today is still valid (the comparison is strictly "before"). */
  lemma ExpiringTodayIsValid(registry: Registry, publicLookup: string -> PublicOutcome, today: Date, scannedData: string)
    requires IsPythonDate(today)
    requires Strip(scannedData) in registry && registry[Strip(scannedData)].expiryDate == IsoFormat(today)
    ensures VerifySmartScan(registry, publicLookup, today, scannedData) == Valid(registry[Strip(scannedData)])
  {
    ParseIsoRoundTrip(today);
  }

  /** A batch whose ISO expiry date lies before today is expired. */
  lemma PastExpiryIsExpired(registry: Registry, publicLookup: string -> PublicOutcome, today: Date, expiry: Date, scannedData: string)
    requires IsPythonDate(expiry) && Before(expiry, today)
    requires Strip(scannedData) in registry && registry[Strip(scannedData)].expiryDate == IsoFormat(expiry)
    ensures VerifySmartScan(registry, publicLookup, today, scannedData) == Expired(registry[Strip(scannedData)])
  {
    ParseIsoRoundTrip(expiry);
  }

  /**
   * When the request for the stripped text reaches the public route itself (lookup_drug on a
   * snapshot), an unmatched batch is reported as public information exactly when the snapshot
   * holds a non-empty record for it, and the record is passed on unchanged. Only a non-empty
   * batch without '/' reaches that route: url_for leaves '/' in the path, so such a batch,
   * like an empty one, matches no route.
   */
  lemma AgainstPublicRegistry(registry: Registry, publicLookup: string -> PublicOutcome, loaded: Option<NafdacApi.Snapshot>,
                              today: Date, scannedData: string)
    requires Strip(scannedData) != [] && '/' !in Strip(scannedData)
    requires publicLookup(Strip(scannedData)) == Replied(NafdacApi.LookupDrug(loaded, Strip(scannedData)))
    requires Strip(scannedData) !in registry
    ensures var db, data := NafdacApi.LoadPublicDb(loaded), Strip(scannedData);
      && (VerifySmartScan(registry, publicLookup, today, scannedData).PublicInfoFound? <==> data in db && db[data] != map[])
      && (VerifySmartScan(registry, publicLookup, today, scannedData).PublicInfoFound? ==>
            VerifySmartScan(registry, publicLookup, today, scannedData).publicData == db[data])
  {
  }
}
