/**
 * Counterfeit reports: the public files one (optionally with a picture),
 * regulators list them with a New/Checked label, mark them checked and see
 * how many are new. The reports table is a map from id to row.
 */
module Report {
  import opened Wrappers
  import opened Text

  const AllowedExtensions: set<string> := {"png", "jpg", "jpeg", "gif"}

  /**
   * allowed_file(filename): the name has a '.' and the text after its last '.', lower-cased,
   * is an image extension.
   */
  function AllowedFile(filename: string): (ok: bool)
    ensures ok ==> LastIndexOf(filename, '.') >= 0
  {
    var dot := LastIndexOf(filename, '.');
    dot >= 0 && Lower(filename[dot + 1..]) in AllowedExtensions
  }

  /** For a name ending in ".ext" with no '.' in ext, the verdict depends on ext alone,
      ignoring ASCII case. */
  lemma AllowedFileIff(stem: string, ext: string)
    requires forall k :: 0 <= k < |ext| ==> ext[k] != '.'
    ensures AllowedFile(stem + "." + ext) <==> Lower(ext) in AllowedExtensions
  {
    var name := stem + "." + ext;
    assert name[|stem|] == '.';
    assert forall k :: |stem| < k < |name| ==> name[k] == ext[k - |stem| - 1];
    LastIndexOfLast(name, '.', |stem|);
    assert name[|stem| + 1..] == ext;
  }

  lemma LastIndexOfLast(s: string, c: char, i: nat)
    requires i < |s| && s[i] == c
    requires forall k :: i < k < |s| ==> s[k] != c
    ensures LastIndexOf(s, c) == i
    decreases |s|
  {
    if s[|s| - 1] != c {
      LastIndexOfLast(s[..|s| - 1], c, i);
    }
  }

  /** A name without '.' is refused. */
  lemma NoDotRefused(filename: string)
    requires forall k :: 0 <= k < |filename| ==> filename[k] != '.'
    ensures !AllowedFile(filename)
  {
  }

  /** One row of the reports table (the image analysis column is never written here). */
  datatype Report = Report(
    userId: Option<int>,
    drugName: Option<string>,
    batchNumber: string,
    location: Option<string>,
    note: Option<string>,
    imageFilename: Option<string>,
    latitude: Option<string>,
    longitude: Option<string>,
    reportedOn: string,
    status: int)

  /** request.form.get(name): None when the field is missing. */
  function FormGet(form: map<string, string>, name: string): Option<string> {
    if name in form then Some(form[name]) else None
  }

  /** An uploaded file: its client-side name. */
  datatype Upload = Upload(filename: string)

  const BatchRequired := "\U{274C} Batch number is required"
  const ReportReceived := "\U{1F6A8} Report received. " + "Thank you for helping " + "keep patients safe."

  /** status_label: "New" exactly for status 0. */
  function StatusLabel(status: int): (name: string)
    ensures name == "New" <==> status == 0
    ensures name != "New" ==> name == "Checked"
  {
    if status == 0 then "New" else "Checked"
  }

  /** The ids of reports still marked New: what count_new_reports counts. */
  function NewIds(reports: map<nat, Report>): set<nat> {
    set id | id in reports && reports[id].status == 0
  }

  function NewCount(reports: map<nat, Report>): nat {
    |NewIds(reports)|
  }

  /** The table after UPDATE reports SET status = 1 WHERE id = ?. */
  function Marked(reports: map<nat, Report>, id: nat): (r: map<nat, Report>)
    ensures r.Keys == reports.Keys
    ensures forall j :: j in reports && j != id ==> r[j] == reports[j]
    ensures id in reports ==> r[id] == reports[id].(status := 1)
  {
    if id in reports then reports[id := reports[id].(status := 1)] else reports
  }

  /** Filing a report adds exactly one new report to the count. */
  lemma {:induction false} NewCountAfterFiling(reports: map<nat, Report>, id: nat, r: Report)
    requires id !in reports && r.status == 0
    ensures NewCount(reports[id := r]) == NewCount(reports) + 1
  {
    assert NewIds(reports[id := r]) == NewIds(reports) + {id};
  }

  /** Marking removes the report from the count when it was new, and changes nothing otherwise. */
  lemma {:induction false} NewCountAfterMarking(reports: map<nat, Report>, id: nat)
    ensures id in reports && reports[id].status == 0 ==> NewCount(Marked(reports, id)) == NewCount(reports) - 1
    ensures !(id in reports && reports[id].status == 0) ==> NewCount(Marked(reports, id)) == NewCount(reports)
  {
    if id in reports && reports[id].status == 0 {
      assert NewIds(Marked(reports, id)) == NewIds(reports) - {id};
    } else {
      assert NewIds(Marked(reports, id)) == NewIds(reports);
    }
  }

  /** Marking is idempotent. */
  lemma MarkedIdempotent(reports: map<nat, Report>, id: nat)
    ensures Marked(Marked(reports, id), id) == Marked(reports, id)
  {
  }

  /** A report listed together with its label. */
  datatype LabelledReport = LabelledReport(report: Report, statusLabel: string)

  /** The labelling loop of get_reports: every row gets its label and nothing else changes. */
  method LabelReports(rows: seq<Report>) returns (out: seq<LabelledReport>)
    ensures |out| == |rows|
    ensures forall k :: 0 <= k < |rows| ==> out[k].report == rows[k]
    ensures forall k :: 0 <= k < |rows| ==> (out[k].statusLabel == "New" <==> rows[k].status == 0)
    ensures forall k :: 0 <= k < |rows| ==> out[k].statusLabel in {"New", "Checked"}
  {
    out := [];
    var i := 0;
    while i < |rows|
      invariant 0 <= i <= |rows|
      invariant |out| == i
      invariant forall k :: 0 <= k < i ==> out[k] == LabelledReport(rows[k], StatusLabel(rows[k].status))
    {
      out := out + [LabelledReport(rows[i], StatusLabel(rows[i].status))];
      i := i + 1;
    }
  }

  /** The reports table, with ids handed out by AUTOINCREMENT from 1. */
  class ReportStore {
    var reports: map<nat, Report>
    var nextId: nat

    ghost predicate Valid()
      reads this
    {
      nextId >= 1 && forall id :: id in reports ==> 1 <= id < nextId
    }

    constructor()
      ensures Valid() && reports == map[] && nextId == 1
    {
      reports := map[];
      nextId := 1;
    }

    /**
     * create_report(): a missing or empty batch_number is refused with 400 and nothing stored.
     * Otherwise one row is inserted under a fresh id with status 0, the picture's stored name
     * kept only for an allowed file name, and 201 is answered.
     */
    method CreateReport(userId: Option<int>, form: map<string, string>, image: Option<Upload>,
                        storedImageName: string, now: string) returns (status: int, message: string)
      requires Valid()
      modifies this
      ensures Valid()
      ensures FormGet(form, "batch_number").GetOr("") == [] ==>
        status == 400 && message == BatchRequired && reports == old(reports) && nextId == old(nextId)
      ensures FormGet(form, "batch_number").GetOr("") != [] ==>
        && status == 201 && message == ReportReceived
        && old(nextId) !in old(reports)
        && nextId == old(nextId) + 1
        && reports == old(reports)[old(nextId) := Report(
             userId, FormGet(form, "drug_name"), form["batch_number"], FormGet(form, "location"),
             FormGet(form, "note"),
             if image.Some? && AllowedFile(image.value.filename) then Some(storedImageName) else None,
             FormGet(form, "latitude"), FormGet(form, "longitude"), now, 0)]
    {
      var batchNumber := FormGet(form, "batch_number");
      if batchNumber.GetOr("") == [] {
        return 400, BatchRequired;
      }
      var imageFilename: Option<string> := None;
      if image.Some? && AllowedFile(image.value.filename) {
        imageFilename := Some(storedImageName);
      }
      var row := Report(userId, FormGet(form, "drug_name"), batchNumber.value, FormGet(form, "location"),
                        FormGet(form, "note"), imageFilename, FormGet(form, "latitude"),
                        FormGet(form, "longitude"), now, 0);
      reports := reports[nextId := row];
      nextId := nextId + 1;
      return 201, ReportReceived;
    }

    /** mark_report_checked(report_id): that report, if any, is set to status 1; no other row
        changes. */
    method MarkReportChecked(reportId: nat)
      requires Valid()
      modifies this
      ensures Valid()
      ensures reports == Marked(old(reports), reportId) && nextId == old(nextId)
    {
      if reportId in reports {
        reports := reports[reportId := reports[reportId].(status := 1)];
      }
    }

    /** count_new_reports(): the number of reports still marked New. */
    method CountNewReports() returns (count: nat)
      ensures count == |NewIds(reports)|
    {
      count := NewCount(reports);
    }
  }
}
