/**
 * client/src/routes/MerchantReports.js: the merchant's report history, its
 * patient selector, the patient's list of reports and the deletion of the
 * selected report. The /merchants/reports answer is an input; the
 * DELETE /reportData request is sent without waiting for its answer.
 */
module MerchantReports {
  import opened Wrappers
  import opened Lists

  /** One entry of the /merchants/reports answer. */
  datatype ReportEntry = ReportEntry(healthDataID: int, name: string, date: string)

  predicate NoRepeats(s: seq<string>) {
    forall i, j :: 0 <= i < j < |s| ==> s[i] != s[j]
  }

  /** The position of the first occurrence of x in s, or -1. */
  function IndexOf(s: seq<string>, x: string): (i: int)
    ensures -1 <= i < |s|
    ensures i == -1 <==> x !in s
    ensures 0 <= i ==> s[i] == x && x !in s[..i]
  {
    if |s| == 0 then -1
    else if s[0] == x then 0
    else
      var k := IndexOf(s[1..], x);
      assert k >= 0 ==> s[..k + 1] == [s[0]] + s[1..][..k];
      if k == -1 then -1 else k + 1
  }

  /** The first occurrence comes no later than any occurrence. */
  lemma IndexOfAtMost(s: seq<string>, x: string, p: int)
    requires 0 <= p < |s| && s[p] == x
    ensures 0 <= IndexOf(s, x) <= p
  {
  }

  function Names(rows: seq<ReportEntry>): (names: seq<string>)
    ensures |names| == |rows|
    ensures forall i :: 0 <= i < |rows| ==> names[i] == rows[i].name
  {
    seq(|rows|, i requires 0 <= i < |rows| => rows[i].name)
  }

  /**
   * `[...new Set(names)]`: each name once, in the order of its first
   * occurrence, built as the Set is, by inserting the names one by one.
   */
  method DistinctNames(names: seq<string>) returns (r: seq<string>)
    ensures NoRepeats(r)
    ensures forall x :: x in r <==> x in names
    ensures forall i, j :: 0 <= i < j < |r| ==> IndexOf(names, r[i]) < IndexOf(names, r[j])
  {
    r := [];
    var k := 0;
    while k < |names|
      invariant 0 <= k <= |names|
      invariant NoRepeats(r)
      invariant forall x :: x in r <==> x in names[..k]
      invariant forall i :: 0 <= i < |r| ==> 0 <= IndexOf(names, r[i]) < k
      invariant forall i, j :: 0 <= i < j < |r| ==> IndexOf(names, r[i]) < IndexOf(names, r[j])
    {
      var x := names[k];
      if x !in r {
        assert x !in names[..k];
        IndexOfAtMost(names, x, k);
        assert IndexOf(names, x) == k;
        r := r + [x];
      }
      assert names[..k + 1] == names[..k] + [x];
      k := k + 1;
    }
    assert names[..k] == names;
  }

  predicate OfPatient(patient: Option<string>, r: ReportEntry) {
    patient == Some(r.name)
  }

  /** `reports.filter((r) => r.name === patient)`: a patient's reports, in fetched order; none for no patient. */
  function ReportsOf(rows: seq<ReportEntry>, patient: Option<string>): (r: seq<ReportEntry>)
    ensures forall x :: x in r <==> x in rows && patient == Some(x.name)
  {
    FilterMembers(rows, (x: ReportEntry) => OfPatient(patient, x));
    Filter(rows, (x: ReportEntry) => OfPatient(patient, x))
  }

  predicate HasId(id: int, r: ReportEntry) {
    r.healthDataID == id
  }

  /** `reports.filter((r) => r.healthDataID !== id)`: every report with that id goes, the others stay in order. */
  function WithoutReport(rows: seq<ReportEntry>, id: int): (r: seq<ReportEntry>)
    ensures forall x :: x in r <==> x in rows && x.healthDataID != id
  {
    FilterMembers(rows, (x: ReportEntry) => !HasId(id, x));
    Filter(rows, (x: ReportEntry) => !HasId(id, x))
  }

  /** The two filters commute: a patient's reports after a deletion are that patient's earlier reports without the deleted one. */
  lemma {:induction false} FiltersCommute(rows: seq<ReportEntry>, id: int, patient: Option<string>)
    ensures ReportsOf(WithoutReport(rows, id), patient) == WithoutReport(ReportsOf(rows, patient), id)
  {
    FilterSwap(rows, (x: ReportEntry) => OfPatient(patient, x), (x: ReportEntry) => !HasId(id, x));
  }

  lemma {:induction false} FilterSwap<T>(s: seq<T>, p: T -> bool, q: T -> bool)
    ensures Filter(Filter(s, q), p) == Filter(Filter(s, p), q)
  {
    if |s| > 0 {
      FilterSwap(s[1..], p, q);
    }
  }

  /** The first report of a list, as `list[0]` reads it: none for an empty list. */
  function First(rows: seq<ReportEntry>): (r: Option<ReportEntry>)
    ensures r.None? <==> rows == []
    ensures r.Some? ==> r.value == rows[0]
  {
    if rows == [] then None else Some(rows[0])
  }

  class Page {
    var reports: seq<ReportEntry>
    var patients: seq<string>
    var selectedPatient: Option<string>
    var reportDates: seq<ReportEntry>
    var selectedDate: Option<ReportEntry>
    var deleteDialogOpen: bool

    constructor()
      ensures reports == [] && patients == [] && selectedPatient == None
      ensures reportDates == [] && selectedDate == None && !deleteDialogOpen
    {
      reports, patients, selectedPatient := [], [], None;
      reportDates, selectedDate, deleteDialogOpen := [], None, false;
    }

    /**
     * `fetchMerchantReports`, given the answer: a non-empty answer replaces
     * the reports, lists each patient once in order of first appearance and
     * clears the patient and report selection (the shown list is kept); an
     * empty answer changes nothing.
     */
    method LoadReports(data: seq<ReportEntry>)
      modifies this
      ensures data == [] ==>
        reports == old(reports) && patients == old(patients) &&
        selectedPatient == old(selectedPatient) && selectedDate == old(selectedDate)
      ensures data != [] ==> reports == data && selectedPatient == None && selectedDate == None
      ensures data != [] ==> NoRepeats(patients) && forall x :: x in patients <==> exists r :: r in data && r.name == x
      ensures data != [] ==> forall i, j :: 0 <= i < j < |patients| ==> IndexOf(Names(data), patients[i]) < IndexOf(Names(data), patients[j])
      ensures reportDates == old(reportDates) && deleteDialogOpen == old(deleteDialogOpen)
    {
      if |data| > 0 {
        reports := data;
        var names := Names(data);
        patients := DistinctNames(names);
        forall x ensures x in names <==> exists r :: r in data && r.name == x {
          if x in names {
            var i :| 0 <= i < |names| && names[i] == x;
            assert data[i] in data;
          }
          if exists r :: r in data && r.name == x {
            var r :| r in data && r.name == x;
            var i :| 0 <= i < |data| && data[i] == r;
            assert names[i] == x;
          }
        }
        selectedPatient := None;
        selectedDate := None;
      }
    }

    /** The patient selector's onChange: the patient's reports are shown and the first is selected. */
    method SelectPatient(name: string)
      modifies this
      ensures selectedPatient == Some(name)
      ensures reportDates == ReportsOf(reports, Some(name))
      ensures selectedDate == First(reportDates)
      ensures forall r :: r in reportDates <==> r in reports && r.name == name
      ensures reports == old(reports) && patients == old(patients) && deleteDialogOpen == old(deleteDialogOpen)
    {
      var selectedReports := ReportsOf(reports, Some(name));
      selectedPatient := Some(name);
      reportDates := selectedReports;
      selectedDate := First(selectedReports);
    }

    /** A list item's onClick. */
    method SelectDate(item: ReportEntry)
      modifies this
      ensures selectedDate == Some(item)
      ensures reports == old(reports) && patients == old(patients) && selectedPatient == old(selectedPatient)
      ensures reportDates == old(reportDates) && deleteDialogOpen == old(deleteDialogOpen)
    {
      selectedDate := Some(item);
    }

    /** The delete icon of the selected item, or the dialog's cancel. */
    method SetDeleteDialog(open: bool)
      modifies this
      ensures deleteDialogOpen == open
      ensures reports == old(reports) && patients == old(patients) && selectedPatient == old(selectedPatient)
      ensures reportDates == old(reportDates) && selectedDate == old(selectedDate)
    {
      deleteDialogOpen := open;
    }

    /**
     * `deleteReport`: with no selected report nothing happens, not even the
     * dialog's closing. Otherwise the DELETE for the selected id is sent
     * (returned here) and, whatever its answer, every report with that id is
     * dropped, the selected patient's remaining reports are shown with the
     * first selected, and the dialog closes. The patient list is kept.
     */
    method DeleteReport() returns (sent: Option<int>)
      modifies this
      ensures old(selectedDate).None? ==>
        sent == None && reports == old(reports) && reportDates == old(reportDates) &&
        selectedDate == old(selectedDate) && deleteDialogOpen == old(deleteDialogOpen)
      ensures old(selectedDate).Some? ==>
        sent == Some(old(selectedDate).value.healthDataID) &&
        reports == WithoutReport(old(reports), sent.value) &&
        reportDates == ReportsOf(reports, selectedPatient) &&
        selectedDate == First(reportDates) && !deleteDialogOpen
      ensures patients == old(patients) && selectedPatient == old(selectedPatient)
    {
      if selectedDate.None? {
        return None;
      }
      var id := selectedDate.value.healthDataID;
      sent := Some(id);
      var updatedReports := WithoutReport(reports, id);
      reports := updatedReports;
      var patientReports := ReportsOf(updatedReports, selectedPatient);
      reportDates := patientReports;
      selectedDate := First(patientReports);
      deleteDialogOpen := false;
    }

    /** When the shown list was the selected patient's, a deletion shows it again without the deleted report, in the same order. */
    lemma DeletionShrinksShownList(id: int)
      requires reportDates == ReportsOf(reports, selectedPatient)
      ensures ReportsOf(WithoutReport(reports, id), selectedPatient) == WithoutReport(reportDates, id)
    {
      FiltersCommute(reports, id, selectedPatient);
    }
  }
}
