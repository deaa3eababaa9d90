/**
 * The regulator back office: the role guard, drug registration, the
 * registered-drugs listing (status filter and pagination), deletion with
 * its cascade, the expiry labels of the Word and PDF exports, and the
 * session keep-alive. Tables are maps from id to row; "today" is a parameter.
 */
module Admin {
  import opened Wrappers
  import opened Text
  import opened Dates
  import opened Drugs
  import App

  // ---------------------------------------------------------------------------
  // Guards
  // ---------------------------------------------------------------------------

  /** session.get("admin_role") == role. */
  predicate RoleMatches(role: string, session: App.Session) {
    "admin_role" in session && session["admin_role"] == App.StrVal(role)
  }

  /** What a guarded route answers: the login redirect, or what its handler answers. */
  datatype Guarded<T> = RedirectToLogin | Handled(response: T)

  /** role_required(role): the handler runs exactly when the session carries that role. */
  function RoleRequired<T>(role: string, session: App.Session, response: T): (g: Guarded<T>)
    ensures g.Handled? <==> RoleMatches(role, session)
    ensures g.Handled? ==> g.response == response
  {
    if RoleMatches(role, session) then Handled(response) else RedirectToLogin
  }

  /** Whoever has just signed in passes the regulator guard, since only regulators may. */
  lemma SignedInPassesGuard<T>(isPost: bool, form: App.Form, users: map<string, App.AdminUser>,
                               checkPassword: (string, string) -> bool, freshToken: string,
                               session: App.Session, response: T)
    requires App.AdminLogin(isPost, form, users, checkPassword, freshToken, session).page == App.DashboardRedirect
    ensures RoleRequired("regulator", App.AdminLogin(isPost, form, users, checkPassword, freshToken, session).session,
                         response) == Handled(response)
  {
  }

  /** A value Python treats as true: a non-zero number or a non-empty text. */
  predicate Truthy(v: App.SessionValue) {
    match v
    case IntVal(i) => i != 0
    case StrVal(s) => s != ""
  }

  /** session.get("admin_id") is truthy. */
  predicate HasAdminId(session: App.Session) {
    "admin_id" in session && Truthy(session["admin_id"])
  }

  datatype PingReply = PingReply(status: int, state: string, message: string)

  /** ping_session(): 200 "session_refreshed" for a signed-in session, else 401 "unauthenticated". */
  function PingSession(session: App.Session): (r: PingReply)
    ensures r.status == 200 <==> HasAdminId(session)
    ensures r.status == 200 ==> r == PingReply(200, "ok", "session_refreshed")
    ensures r.status != 200 ==> r == PingReply(401, "error", "unauthenticated")
  {
    if HasAdminId(session) then PingReply(200, "ok", "session_refreshed")
    else PingReply(401, "error", "unauthenticated")
  }

  // ---------------------------------------------------------------------------
  // Registration
  // ---------------------------------------------------------------------------

  const RequiredFields: seq<string> := ["name", "batch_number", "mfg_date", "expiry_date", "manufacturer"]

  /** `not data.get(f)`: the field is missing or empty. */
  predicate Falsy(data: map<string, string>, f: string) {
    f !in data || data[f] == ""
  }

  /** `a` is `b` with some elements left out, the rest in order. */
  predicate IsSubsequence<T(==)>(a: seq<T>, b: seq<T>) {
    if |a| == 0 then true
    else if |b| == 0 then false
    else if a[0] == b[0] then IsSubsequence(a[1..], b[1..])
    else IsSubsequence(a, b[1..])
  }

  /** [f for f in required if not data.get(f)]: the falsy fields, in the required order. */
  function MissingFields(required: seq<string>, data: map<string, string>): (missing: seq<string>)
    ensures forall f :: f in missing <==> f in required && Falsy(data, f)
    ensures IsSubsequence(missing, required)
    ensures missing == [] <==> forall k :: 0 <= k < |required| ==> !Falsy(data, required[k])
  {
    if |required| == 0 then []
    else if Falsy(data, required[0]) then [required[0]] + MissingFields(required[1..], data)
    else MissingFields(required[1..], data)
  }

  /** A drugs row: the registered fields and the insertion time. */
  datatype DrugRow = DrugRow(drug: Drug, createdAt: string)

  /** An adverse-drug-reaction report, pointing at a drugs row. */
  datatype AdrReport = AdrReport(drugId: nat, reactionDescription: string)

  /** The answers of the guarded routes modelled here. */
  datatype Response =
    | LoginRedirect
    | JsonError(status: int, error: string)
    | QrCode(content: string)
    | JsonMessage(message: string)

  /** The batch number is already used by some drugs row (batch_number is UNIQUE). */
  predicate BatchTaken(drugs: map<nat, DrugRow>, batchNumber: string) {
    exists id :: id in drugs && drugs[id].drug.batchNumber == batchNumber
  }

  /** The adverse-reaction reports that do not point at `drugId`. */
  function WithoutReportsOf(adr: map<nat, AdrReport>, drugId: nat): (r: map<nat, AdrReport>)
    ensures forall id :: id in r <==> id in adr && adr[id].drugId != drugId
    ensures forall id :: id in r ==> r[id] == adr[id]
  {
    map id | id in adr && adr[id].drugId != drugId :: adr[id]
  }

  /** The drugs and adr_reports tables. */
  class AdminDb {
    var drugs: map<nat, DrugRow>
    var adrReports: map<nat, AdrReport>
    var nextDrugId: nat

    /** Ids come from AUTOINCREMENT and batch numbers are unique. */
    ghost predicate Valid()
      reads this
    {
      && nextDrugId >= 1
      && (forall id :: id in drugs ==> 1 <= id < nextDrugId)
      && (forall i, j :: i in drugs && j in drugs && i != j ==> drugs[i].drug.batchNumber != drugs[j].drug.batchNumber)
    }

    constructor(adrReports: map<nat, AdrReport>)
      ensures Valid() && drugs == map[] && this.adrReports == adrReports && nextDrugId == 1
    {
      drugs := map[];
      this.adrReports := adrReports;
      nextDrugId := 1;
    }

    /**
     * admin_register(): behind the regulator guard, a session without an admin id gets 401;
     * missing fields are listed in order with 400; a batch number already registered gets 409;
     * otherwise the drug is inserted and the answer is a QR code of its batch number.
     */
    method AdminRegister(session: App.Session, data: map<string, string>, now: string) returns (r: Response)
      requires Valid()
      modifies this
      ensures Valid()
      ensures var missing := MissingFields(RequiredFields, data);
        && (!RoleMatches("regulator", session) ==> r == LoginRedirect)
        && (RoleMatches("regulator", session) && !HasAdminId(session) ==> r == JsonError(401, "Authentication required"))
        && (RoleMatches("regulator", session) && HasAdminId(session) && missing != [] ==>
              r == JsonError(400, "Missing fields: " + Join(missing, ", ")))
        && (RoleMatches("regulator", session) && HasAdminId(session) && missing == [] ==>
              if BatchTaken(old(drugs), App.Field(data, "batch_number")) then r == JsonError(409, "Batch number already exists")
              else r == QrCode(App.Field(data, "batch_number")))
      ensures r.QrCode? ==>
        && nextDrugId == old(nextDrugId) + 1
        && drugs == old(drugs)[old(nextDrugId) := DrugRow(Drug(App.Field(data, "name"), App.Field(data, "batch_number"),
             App.Field(data, "mfg_date"), App.Field(data, "expiry_date"), App.Field(data, "manufacturer")), now)]
      ensures !r.QrCode? ==> drugs == old(drugs) && nextDrugId == old(nextDrugId)
      ensures adrReports == old(adrReports)
    {
      if !RoleMatches("regulator", session) {
        return LoginRedirect;
      }
      if !HasAdminId(session) {
        return JsonError(401, "Authentication required");
      }
      var missing := MissingFields(RequiredFields, data);
      if missing != [] {
        return JsonError(400, "Missing fields: " + Join(missing, ", "));
      }
      assert forall k :: 0 <= k < |RequiredFields| ==> RequiredFields[k] in data;
      assert "batch_number" in data by { assert RequiredFields[1] == "batch_number"; }
      assert "name" in data && "mfg_date" in data && "expiry_date" in data && "manufacturer" in data by {
        assert RequiredFields[0] == "name" && RequiredFields[2] == "mfg_date";
        assert RequiredFields[3] == "expiry_date" && RequiredFields[4] == "manufacturer";
      }
      var batchNumber := data["batch_number"];
      if exists id :: id in drugs && drugs[id].drug.batchNumber == batchNumber {
        return JsonError(409, "Batch number already exists");
      }
      var row := DrugRow(Drug(data["name"], batchNumber, data["mfg_date"], data["expiry_date"], data["manufacturer"]), now);
      drugs := drugs[nextDrugId := row];
      nextDrugId := nextDrugId + 1;
      return QrCode(batchNumber);
    }

    /**
     * delete_drug(drug_id): behind the regulator guard, a session without an admin id gets 401.
     * Otherwise every adverse-reaction report of the drug is deleted and then the drug row;
     * when there was no such row the answer is 404 (the reports are deleted all the same).
     */
    method DeleteDrug(session: App.Session, drugId: nat) returns (r: Response)
      requires Valid()
      modifies this
      ensures Valid()
      ensures !RoleMatches("regulator", session) || !HasAdminId(session) ==>
        drugs == old(drugs) && adrReports == old(adrReports)
        && r == (if !RoleMatches("regulator", session) then LoginRedirect else JsonError(401, "Authentication required"))
      ensures RoleMatches("regulator", session) && HasAdminId(session) ==>
        && drugs == old(drugs) - {drugId}
        && adrReports == WithoutReportsOf(old(adrReports), drugId)
        && (r == JsonError(404, "Drug not found") <==> drugId !in old(drugs))
        && (drugId in old(drugs) ==> r == JsonMessage("Drug and all associated reports deleted successfully."))
      ensures forall id :: id in adrReports && RoleMatches("regulator", session) && HasAdminId(session) ==>
        adrReports[id].drugId != drugId
      ensures nextDrugId == old(nextDrugId)
    {
      if !RoleMatches("regulator", session) {
        return LoginRedirect;
      }
      if !HasAdminId(session) {
        return JsonError(401, "Authentication required");
      }
      adrReports := WithoutReportsOf(adrReports, drugId);
      var removed := drugId in drugs;
      drugs := drugs - {drugId};
      if !removed {
        return JsonError(404, "Drug not found");
      }
      return JsonMessage("Drug and all associated reports deleted successfully.");
    }
  }

  // ---------------------------------------------------------------------------
  // The registered-drugs listing
  // ---------------------------------------------------------------------------

  const PerPage: nat := 20

  /** The "expiring soon" window: timedelta(days=30) and SQLite's '+30 day'. */
  const SoonDays: nat := 30

  /** offset = (page - 1) * per_page. */
  function Offset(page: int): int {
    (page - 1) * PerPage
  }

  /** total_pages = (total + per_page - 1) // per_page: the fewest pages that hold every row. */
  function TotalPages(total: nat): (n: nat)
    ensures n * PerPage >= total
    ensures n > 0 ==> (n - 1) * PerPage < total
    ensures n == 0 <==> total == 0
  {
    (total + PerPage - 1) / PerPage
  }

  function Min(a: int, b: int): int {
    if a < b then a else b
  }

  /** LIMIT 20 OFFSET offset over the listed rows; SQLite reads a negative offset as 0. */
  function PageRows<T>(rows: seq<T>, page: int): (r: seq<T>)
    ensures |r| <= PerPage
  {
    var start := if Offset(page) < 0 then 0 else Min(Offset(page), |rows|);
    var end := Min(start + PerPage, |rows|);
    rows[start..end]
  }

  /** Pages 1 to n, one after the other. */
  function FirstPages<T>(rows: seq<T>, n: nat): seq<T> {
    if n == 0 then [] else FirstPages(rows, n - 1) + PageRows(rows, n)
  }

  /** The first n pages are the first 20 n rows. */
  lemma {:induction false} FirstPagesArePrefix<T>(rows: seq<T>, n: nat)
    ensures FirstPages(rows, n) == rows[..Min(n * PerPage, |rows|)]
  {
    if n > 0 {
      FirstPagesArePrefix(rows, n - 1);
      assert Offset(n) == (n - 1) * PerPage;
      assert rows[..Min((n - 1) * PerPage, |rows|)] + rows[Min((n - 1) * PerPage, |rows|)..Min(n * PerPage, |rows|)]
          == rows[..Min(n * PerPage, |rows|)];
    }
  }

  /** Paging through pages 1 to total_pages shows every row once, in order. */
  lemma PagesCoverRows<T>(rows: seq<T>)
    ensures FirstPages(rows, TotalPages(|rows|)) == rows
  {
    FirstPagesArePrefix(rows, TotalPages(|rows|));
  }

  /** Pages after the last one, and page numbers of 1 or less (which show the first page), behave
      as the offsets say. */
  lemma PageBounds<T>(rows: seq<T>, page: int)
    ensures page > TotalPages(|rows|) ==> PageRows(rows, page) == []
    ensures page <= 1 ==> PageRows(rows, page) == PageRows(rows, 1)
  {
  }

  /** date(expiry_date): the normalised text SQLite compares, None for NULL. */
  function SqlDateText(expiry: string): (r: Option<string>)
    ensures r.None? <==> SqliteDate(expiry).None?
    ensures r.Some? ==> SqliteDate(r.value) == SqliteDate(expiry)
  {
    match SqliteDate(expiry)
    case None => None
    case Some(d) => SqliteDateOfIso(d); Some(IsoFormat(d))
  }

  /** An expiry stored as isoformat() text is compared as that very text. */
  lemma SqlDateTextOfIso(d: Date)
    requires IsPythonDate(d)
    ensures SqlDateText(IsoFormat(d)) == Some(IsoFormat(d))
  {
    SqliteDateOfIso(d);
  }

  /** The WHERE clause of a status filter on the normalised expiry text `t`, with `lo` today's
      text and `hi` that of today + 30 days; any other status filters nothing. */
  predicate TextFilter(status: string, t: Option<string>, lo: string, hi: string) {
    if status == "valid" then t.Some? && !StrLess(t.value, lo)
    else if status == "expired" then t.Some? && StrLess(t.value, lo)
    else if status == "soon" then t.Some? && StrLessEq(lo, t.value) && StrLessEq(t.value, hi)
    else true
  }

  /** The status filter on one expiry value, as SQLite evaluates it today. */
  predicate StatusFilter(status: string, expiry: string, today: Date)
    requires IsCalendarDate(today) && AddDays(today, SoonDays).year <= 9999
  {
    TextFilter(status, SqlDateText(expiry), IsoFormat(today), IsoFormat(AddDays(today, SoonDays)))
  }

  /** The text given for a date SQLite may have read. */
  function IsoText(d: Option<Date>): Option<string>
    requires d.Some? ==> d.value.year <= 9999 && IsCalendarDate(d.value)
  {
    if d.Some? then Some(IsoFormat(d.value)) else None
  }

  /** On isoformat() texts the three filters compare dates. */
  lemma TextFilterOnDates(d: Option<Date>, today: Date, soon: Date)
    requires d.Some? ==> d.value.year <= 9999 && IsCalendarDate(d.value)
    requires IsCalendarDate(today) && IsCalendarDate(soon) && today.year <= 9999 && soon.year <= 9999
    ensures var t, lo, hi := IsoText(d), IsoFormat(today), IsoFormat(soon);
      && (TextFilter("valid", t, lo, hi) <==> d.Some? && !Before(d.value, today))
      && (TextFilter("expired", t, lo, hi) <==> d.Some? && Before(d.value, today))
      && (TextFilter("soon", t, lo, hi) <==> d.Some? && NotAfter(today, d.value) && NotAfter(d.value, soon))
  {
    if d.Some? {
      IsoOrder(d.value, today);
      WithinAsText(d.value, today, soon);
    }
  }

  /** The filter on the row's expiry is the filter on the date SQLite reads from it. */
  lemma StatusFilterOnDate(status: string, expiry: string, today: Date)
    requires IsCalendarDate(today) && AddDays(today, SoonDays).year <= 9999
    ensures var soon := AddDays(today, SoonDays);
      && today.year <= soon.year
      && StatusFilter(status, expiry, today) == TextFilter(status, IsoText(SqliteDate(expiry)), IsoFormat(today), IsoFormat(soon))
  {
    var soon := AddDays(today, SoonDays);
    assert NotAfter(today, soon);
    assert SqlDateText(expiry) == IsoText(SqliteDate(expiry));
  }

  /** The "valid" filter keeps the rows whose expiry SQLite reads as today or later. */
  lemma ValidFilterMeaning(expiry: string, today: Date)
    requires IsCalendarDate(today) && AddDays(today, SoonDays).year <= 9999
    ensures StatusFilter("valid", expiry, today) <==> SqliteDate(expiry).Some? && !Before(SqliteDate(expiry).value, today)
  {
    StatusFilterOnDate("valid", expiry, today);
    TextFilterOnDates(SqliteDate(expiry), today, AddDays(today, SoonDays));
  }

  /** The "expired" filter keeps the rows whose expiry SQLite reads as before today. */
  lemma ExpiredFilterMeaning(expiry: string, today: Date)
    requires IsCalendarDate(today) && AddDays(today, SoonDays).year <= 9999
    ensures StatusFilter("expired", expiry, today) <==> SqliteDate(expiry).Some? && Before(SqliteDate(expiry).value, today)
  {
    StatusFilterOnDate("expired", expiry, today);
    TextFilterOnDates(SqliteDate(expiry), today, AddDays(today, SoonDays));
  }

  /** The "soon" filter keeps the rows whose expiry SQLite reads as today to today + 30 days. */
  lemma SoonFilterMeaning(expiry: string, today: Date)
    requires IsCalendarDate(today) && AddDays(today, SoonDays).year <= 9999
    ensures StatusFilter("soon", expiry, today) <==>
      SqliteDate(expiry).Some? && NotAfter(today, SqliteDate(expiry).value) &&
      NotAfter(SqliteDate(expiry).value, AddDays(today, SoonDays))
  {
    StatusFilterOnDate("soon", expiry, today);
    TextFilterOnDates(SqliteDate(expiry), today, AddDays(today, SoonDays));
  }

  /** Between two dates as isoformat() text is between them as dates. */
  lemma WithinAsText(d: Date, lo: Date, hi: Date)
    requires IsCalendarDate(d) && IsCalendarDate(lo) && IsCalendarDate(hi)
    requires d.year <= 9999 && lo.year <= 9999 && hi.year <= 9999
    ensures StrLessEq(IsoFormat(lo), IsoFormat(d)) && StrLessEq(IsoFormat(d), IsoFormat(hi)) <==>
      NotAfter(lo, d) && NotAfter(d, hi)
  {
    IsoOrder(lo, d);
    IsoOrder(d, hi);
  }

  /** On isoformat() texts, "valid" and "expired" split the readable dates; "soon" dates are valid. */
  lemma TextFiltersPartition(d: Option<Date>, today: Date, soon: Date)
    requires d.Some? ==> d.value.year <= 9999 && IsCalendarDate(d.value)
    requires IsCalendarDate(today) && IsCalendarDate(soon) && today.year <= 9999 && soon.year <= 9999
    ensures var t, lo, hi := IsoText(d), IsoFormat(today), IsoFormat(soon);
      && (d.Some? ==> TextFilter("valid", t, lo, hi) != TextFilter("expired", t, lo, hi))
      && (TextFilter("soon", t, lo, hi) ==> TextFilter("valid", t, lo, hi))
  {
    TextFilterOnDates(d, today, soon);
  }

  /** "valid" and "expired" split the readable rows between them; "soon" rows are valid. */
  lemma StatusFiltersPartition(expiry: string, today: Date)
    requires IsCalendarDate(today) && AddDays(today, SoonDays).year <= 9999
    ensures SqliteDate(expiry).Some? ==> (StatusFilter("valid", expiry, today) != StatusFilter("expired", expiry, today))
    ensures StatusFilter("soon", expiry, today) ==> StatusFilter("valid", expiry, today)
  {
    var soon := AddDays(today, SoonDays);
    assert NotAfter(today, soon);
    assert SqlDateText(expiry) == IsoText(SqliteDate(expiry));
    TextFiltersPartition(SqliteDate(expiry), today, soon);
  }

  /** The elements a WHERE condition keeps, in their order and with their multiplicity. */
  function Where<T(==,!new)>(rows: seq<T>, keep: T -> bool): (r: seq<T>)
    ensures |r| <= |rows|
    ensures IsSubsequence(r, rows)
    ensures forall x :: multiset(r)[x] == if keep(x) then multiset(rows)[x] else 0
  {
    if |rows| == 0 then []
    else
      var rest := Where(rows[1..], keep);
      assert rows == [rows[0]] + rows[1..];
      if keep(rows[0]) then
        var r := [rows[0]] + rest;
        assert r[1..] == rest;
        r
      else rest
  }

  /** The rows the listing query keeps, in their order. */
  function FilterByStatus(rows: seq<DrugRow>, status: string, today: Date): (r: seq<DrugRow>)
    requires IsCalendarDate(today) && AddDays(today, SoonDays).year <= 9999
    ensures |r| <= |rows|
    ensures forall k :: 0 <= k < |r| ==> r[k] in rows && StatusFilter(status, r[k].drug.expiryDate, today)
    ensures forall x :: x in rows && StatusFilter(status, x.drug.expiryDate, today) ==> x in r
    ensures IsSubsequence(r, rows)
    ensures forall x :: multiset(r)[x] == if StatusFilter(status, x.drug.expiryDate, today) then multiset(rows)[x] else 0
  {
    var keep := (x: DrugRow) => StatusFilter(status, x.drug.expiryDate, today);
    var r := Where(rows, keep);
    KeptMembers(r, rows, keep);
    r
  }

  /** Under the multiplicity rule of Where, the kept elements are the elements satisfying the
      condition. */
  lemma KeptMembers<T(!new)>(r: seq<T>, rows: seq<T>, keep: T -> bool)
    requires forall x :: multiset(r)[x] == if keep(x) then multiset(rows)[x] else 0
    ensures forall k :: 0 <= k < |r| ==> r[k] in rows && keep(r[k])
    ensures forall x :: x in rows && keep(x) ==> x in r
  {
    forall k | 0 <= k < |r|
      ensures r[k] in rows && keep(r[k])
    {
      assert multiset(r)[r[k]] > 0;
    }
    forall x | x in rows && keep(x)
      ensures x in r
    {
      assert multiset(rows)[x] > 0;
    }
  }

  // ---------------------------------------------------------------------------
  // Export labels
  // ---------------------------------------------------------------------------

  /**
   * The Word export's label: the expiry parsed as a date (today when it does not parse) is
   * "Expired" before today, "Expiring Soon" up to today + 30 days, "Valid" after.
   */
  function WordLabel(expiry: string, today: Date): (name: string)
    requires IsPythonDate(today) && AddDays(today, SoonDays).year <= 9999
    ensures ParseDate(expiry).None? ==> name == "Expiring Soon"
    ensures ParseDate(expiry).Some? ==>
      name == (if Before(ParseDate(expiry).value, today) then "Expired"
               else if NotAfter(ParseDate(expiry).value, AddDays(today, SoonDays)) then "Expiring Soon"
               else "Valid")
  {
    var soon := AddDays(today, SoonDays);
    var exp := ParseDate(expiry).GetOr(today);
    if Before(exp, today) then "Expired"
    else if NotAfter(exp, soon) then "Expiring Soon"
    else "Valid"
  }

  /** The PDF export's label: the same thresholds, compared as text with isoformat(). */
  function PdfLabel(expiry: string, today: Date): (name: string)
    requires IsPythonDate(today) && AddDays(today, SoonDays).year <= 9999
    ensures name in {"Expired", "Expiring Soon", "Valid"}
  {
    if StrLess(expiry, IsoFormat(today)) then "Expired"
    else if StrLessEq(expiry, IsoFormat(AddDays(today, SoonDays))) then "Expiring Soon"
    else "Valid"
  }

  /** On zero-padded YYYY-MM-DD expiry dates the two exports label alike. */
  lemma PdfAgreesWithWord(expiry: Date, today: Date)
    requires IsPythonDate(today) && AddDays(today, SoonDays).year <= 9999
    requires IsPythonDate(expiry)
    ensures PdfLabel(IsoFormat(expiry), today) == WordLabel(IsoFormat(expiry), today)
  {
    var soon := AddDays(today, SoonDays);
    ParseIsoRoundTrip(expiry);
    IsoOrder(expiry, today);
    IsoOrder(expiry, soon);
  }

  /** They part on dates strptime accepts without padding: 2025-9-1 is long past on 2025-10-14,
      yet as text it sorts after "2025-10-14", so the PDF does not call it expired. */
  lemma LabelsDifferOnUnpaddedDate()
    ensures WordLabel("2025-9-1", Date(2025, 10, 14)) == "Expired"
    ensures PdfLabel("2025-9-1", Date(2025, 10, 14)) != "Expired"
  {
    UnpaddedDateParses();
    OctoberText();
    assert AddDays(Date(2025, 10, 14), SoonDays) == AddDays(Date(2025, 11, 1), 12);
    assert !StrLess("2025-9-1", "2025-10-14") by {
      assert "2025-9-1"[..5] == "2025-10-14"[..5];
      assert "2025-9-1"[5] > "2025-10-14"[5];
    }
  }

  /** strptime accepts "2025-9-1". */
  lemma UnpaddedDateParses()
    ensures ParseDate("2025-9-1") == Some(Date(2025, 9, 1))
  {
    var s := "2025-9-1";
    assert s[..4] == "2025" && s[4] == '-' && s[5..] == "9-1";
    assert DigitsValue("2025") == 2025 by {
      assert "2025"[..3] == "202" && "202"[..2] == "20" && "20"[..1] == "2";
    }
    assert "9-1"[..1] == "9" && "9-1"[2..] == "1";
  }

  lemma OctoberText()
    ensures IsoFormat(Date(2025, 10, 14)) == "2025-10-14"
  {
    assert Digits(2025, 4) == "2025";
  }

  // ---------------------------------------------------------------------------
  // Export tables
  // ---------------------------------------------------------------------------

  const Header: seq<string> := ["Name", "Batch Number", "Manufacturer", "Mfg Date", "Expiry Date", "Status", "Registered On"]

  /** One exported row: the six listed columns with the status label in sixth place. */
  function Cells(row: DrugRow, status: string): (c: seq<string>)
    ensures |c| == |Header|
    ensures c[4] == row.drug.expiryDate && c[5] == status && c[6] == row.createdAt
  {
    [row.drug.name, row.drug.batchNumber, row.drug.manufacturer, row.drug.mfgDate, row.drug.expiryDate, status, row.createdAt]
  }

  /** The Word export's table: the header, then one row per listed drug labelled by WordLabel. */
  method WordTable(rows: seq<DrugRow>, today: Date) returns (table: seq<seq<string>>)
    requires IsPythonDate(today) && AddDays(today, SoonDays).year <= 9999
    ensures |table| == |rows| + 1 && table[0] == Header
    ensures forall k :: 0 <= k < |rows| ==> table[k + 1] == Cells(rows[k], WordLabel(rows[k].drug.expiryDate, today))
  {
    table := [Header];
    for i := 0 to |rows|
      invariant |table| == i + 1 && table[0] == Header
      invariant forall k :: 0 <= k < i ==> table[k + 1] == Cells(rows[k], WordLabel(rows[k].drug.expiryDate, today))
    {
      table := table + [Cells(rows[i], WordLabel(rows[i].drug.expiryDate, today))];
    }
  }

  /** The PDF export's table: the same columns, labelled by PdfLabel. */
  method PdfTable(rows: seq<DrugRow>, today: Date) returns (table: seq<seq<string>>)
    requires IsPythonDate(today) && AddDays(today, SoonDays).year <= 9999
    ensures |table| == |rows| + 1 && table[0] == Header
    ensures forall k :: 0 <= k < |rows| ==> table[k + 1] == Cells(rows[k], PdfLabel(rows[k].drug.expiryDate, today))
  {
    table := [Header];
    for i := 0 to |rows|
      invariant |table| == i + 1 && table[0] == Header
      invariant forall k :: 0 <= k < i ==> table[k + 1] == Cells(rows[k], PdfLabel(rows[k].drug.expiryDate, today))
    {
      table := table + [Cells(rows[i], PdfLabel(rows[i].drug.expiryDate, today))];
    }
  }

  /** When every expiry is isoformat() text of a date, the two exports produce the same rows. */
  lemma ExportsAgreeOnIsoDates(rows: seq<DrugRow>, today: Date, expiries: seq<Date>)
    requires IsPythonDate(today) && AddDays(today, SoonDays).year <= 9999
    requires |expiries| == |rows|
    requires forall k :: 0 <= k < |rows| ==> IsPythonDate(expiries[k]) && rows[k].drug.expiryDate == IsoFormat(expiries[k])
    ensures forall k :: 0 <= k < |rows| ==>
      Cells(rows[k], PdfLabel(rows[k].drug.expiryDate, today)) == Cells(rows[k], WordLabel(rows[k].drug.expiryDate, today))
  {
    forall k | 0 <= k < |rows|
      ensures Cells(rows[k], PdfLabel(rows[k].drug.expiryDate, today)) == Cells(rows[k], WordLabel(rows[k].drug.expiryDate, today))
    {
      PdfAgreesWithWord(expiries[k], today);
    }
  }
}
