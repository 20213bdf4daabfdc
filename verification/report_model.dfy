/** The Report collection (backend/models/Report.js): a saved diagnostic
    report, owned by the account that created it. */
module ReportModel {
  import opened Common

  datatype Gender = Male | Female
  datatype ScanType = Xray | Ct | Mri | Ecg
  datatype ReportStatus = Normal | Abnormal | Critical
  datatype RiskLevel = Low | Moderate | High

  /** The `enum` check of `gender`. */
  function ParseGender(s: string): (r: Option<Gender>)
    ensures r.Some? <==> s in ["male", "female"]
  {
    if s == "male" then Some(Male) else if s == "female" then Some(Female) else None
  }

  /** The `enum` check of `scanType`. */
  function ParseScanType(s: string): (r: Option<ScanType>)
    ensures r.Some? <==> s in ["xray", "ct", "mri", "ecg"]
  {
    if s == "xray" then Some(Xray)
    else if s == "ct" then Some(Ct)
    else if s == "mri" then Some(Mri)
    else if s == "ecg" then Some(Ecg)
    else None
  }

  /** The `enum` check of `status`. */
  function ParseReportStatus(s: string): (r: Option<ReportStatus>)
    ensures r.Some? <==> s in ["normal", "abnormal", "critical"]
  {
    if s == "normal" then Some(Normal)
    else if s == "abnormal" then Some(Abnormal)
    else if s == "critical" then Some(Critical)
    else None
  }

  /** The `enum` check of `riskLevel`. */
  function ParseRiskLevel(s: string): (r: Option<RiskLevel>)
    ensures r.Some? <==> s in ["Low", "Moderate", "High"]
  {
    if s == "Low" then Some(Low)
    else if s == "Moderate" then Some(Moderate)
    else if s == "High" then Some(High)
    else None
  }

  /** A stored report; `id` is allocated in creation order, so it also orders
      reports by `createdAt`. */
  datatype Report = Report(
    id: nat,
    userId: nat,
    patientName: string,
    age: int,
    gender: Gender,
    scanType: ScanType,
    clinicalNotes: string,
    diagnosis: string,
    confidence: real,
    status: ReportStatus,
    riskLevel: RiskLevel,
    details: string,
    recommendations: seq<string>,
    imageUrl: string)

  /** The validators beyond the enums: required strings are non-empty and
      the confidence lies in [0, 100]. */
  predicate ValidReport(r: Report) {
    && r.patientName != ""
    && r.diagnosis != ""
    && 0.0 <= r.confidence <= 100.0
  }

  /** The object a handler passes to `Report.create`; an absent key is `None`. */
  datatype ReportDoc = ReportDoc(
    userId: nat,
    patientName: Option<string>,
    age: Option<int>,
    gender: Option<string>,
    scanType: Option<string>,
    clinicalNotes: Option<string>,
    diagnosis: Option<string>,
    confidence: Option<real>,
    status: Option<string>,
    riskLevel: Option<string>,
    details: Option<string>,
    recommendations: Option<seq<string>>,
    imageUrl: Option<string>)

  /** The Report schema applied to a document; `None` is a validation error. */
  function CastReport(doc: ReportDoc, id: nat): Option<Report> {
    var gender := ParseGender(doc.gender.GetOr(""));
    var scan := ParseScanType(doc.scanType.GetOr(""));
    var status := ParseReportStatus(doc.status.GetOr(""));
    var risk := ParseRiskLevel(doc.riskLevel.GetOr(""));
    if !Given(doc.patientName) || doc.age.None? || gender.None? || scan.None? ||
       !Given(doc.diagnosis) || doc.confidence.None? ||
       !(0.0 <= doc.confidence.value <= 100.0) || status.None? || risk.None?
    then None
    else Some(Report(
      id, doc.userId, doc.patientName.value, doc.age.value, gender.value, scan.value,
      doc.clinicalNotes.GetOr(""), doc.diagnosis.value, doc.confidence.value,
      status.value, risk.value, doc.details.GetOr(""), doc.recommendations.GetOr([]),
      doc.imageUrl.GetOr("")))
  }

  /** The schema accepts a document exactly when its required paths are
      present, its enums hold and its confidence is within [0, 100]; what it
      stores is valid and carries the defaults for `clinicalNotes` ("") and
      `recommendations` (empty). */
  lemma CastReportSpec(doc: ReportDoc, id: nat)
    ensures CastReport(doc, id).Some? <==>
      && Given(doc.patientName) && doc.age.Some? && Given(doc.diagnosis)
      && doc.gender.Some? && doc.gender.value in ["male", "female"]
      && doc.scanType.Some? && doc.scanType.value in ["xray", "ct", "mri", "ecg"]
      && doc.status.Some? && doc.status.value in ["normal", "abnormal", "critical"]
      && doc.riskLevel.Some? && doc.riskLevel.value in ["Low", "Moderate", "High"]
      && doc.confidence.Some? && 0.0 <= doc.confidence.value <= 100.0
    ensures CastReport(doc, id).Some? ==>
      var r := CastReport(doc, id).value;
      && ValidReport(r) && r.id == id && r.userId == doc.userId
      && (doc.clinicalNotes.None? ==> r.clinicalNotes == "")
      && (doc.recommendations.None? ==> r.recommendations == [])
  {
  }

  /** The Report collection, in insertion (= creation) order. */
  class ReportStore {
    var reports: seq<Report>
    var nextId: nat

    ghost predicate Valid()
      reads this
    {
      StoredReports(reports, nextId)
    }

    constructor ()
      ensures Valid() && reports == []
    {
      reports := [];
      nextId := 0;
    }

    /** `Report.create(doc)`: validates, stores and returns the new report,
        or reports the validation error and stores nothing. */
    method Create(doc: ReportDoc) returns (r: Option<Report>)
      requires Valid()
      modifies this
      ensures Valid()
      ensures r == CastReport(doc, old(nextId))
      ensures reports == if r.Some? then old(reports) + [r.value] else old(reports)
    {
      r := CastReport(doc, nextId);
      if r.Some? {
        CastReportSpec(doc, nextId);
        StoredReportsAppend(reports, nextId, r.value);
        reports := reports + [r.value];
        nextId := nextId + 1;
      }
    }

    /** `findOneAndDelete` of the report at position `k`. */
    method Remove(k: nat)
      requires Valid() && k < |reports|
      modifies this
      ensures Valid()
      ensures reports == old(reports)[..k] + old(reports)[k + 1..]
      ensures nextId == old(nextId)
    {
      StoredReportsRemove(reports, nextId, k);
      reports := reports[..k] + reports[k + 1..];
    }
  }

  ghost predicate StoredReports(rs: seq<Report>, next: nat) {
    && (forall i :: 0 <= i < |rs| ==> ValidReport(rs[i]) && rs[i].id < next)
    && IdsAscending(rs)
  }

  /** Ids grow with creation time, so store order is `createdAt` order. */
  predicate IdsAscending(rs: seq<Report>) {
    forall i, j :: 0 <= i < j < |rs| ==> rs[i].id < rs[j].id
  }

  lemma StoredReportsAppend(rs: seq<Report>, next: nat, r: Report)
    requires StoredReports(rs, next) && ValidReport(r) && r.id == next
    ensures StoredReports(rs + [r], next + 1)
  {
    var t := rs + [r];
    forall i, j | 0 <= i < j < |t| ensures t[i].id < t[j].id {
      if j < |rs| { assert t[i] == rs[i] && t[j] == rs[j]; } else { assert t[i] == rs[i]; }
    }
  }

  lemma StoredReportsRemove(rs: seq<Report>, next: nat, k: nat)
    requires StoredReports(rs, next) && k < |rs|
    ensures StoredReports(rs[..k] + rs[k + 1..], next)
  {
    var t := rs[..k] + rs[k + 1..];
    assert forall i :: 0 <= i < |t| ==> t[i] == rs[if i < k then i else i + 1];
  }

  /** `findOne({ _id: id, userId: owner })`: the position of the report with
      that id, provided the owner matches. */
  function IndexOfOwned(rs: seq<Report>, id: nat, owner: nat): (k: Option<nat>)
    ensures k.Some? ==> k.value < |rs| && rs[k.value].id == id && rs[k.value].userId == owner
    ensures k.None? ==> forall i :: 0 <= i < |rs| ==> !(rs[i].id == id && rs[i].userId == owner)
  {
    if rs == [] then None
    else if rs[0].id == id && rs[0].userId == owner then Some(0)
    else
      var k := IndexOfOwned(rs[1..], id, owner);
      if k.Some? then Some(k.value + 1) else None
  }
}
