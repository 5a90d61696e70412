/**
 * client/src/components/DownloadReportButton.js: the guard of the download
 * button, the local date part of the file name and the file-name choice.
 * Date parsing, the PDF rendering and the saving of the file are done outside
 * this model; their outcomes are inputs.
 */
module DownloadReportButton {
  import opened Wrappers
  import opened Strings
  import opened Dates

  /** A health data id as the page passes it: a number or a text. */
  datatype Id = Num(n: int) | Text(s: string)

  /** JavaScript truthiness of an optional id: absent, 0 and "" are false. */
  predicate Truthy(id: Option<Id>) {
    match id
    case None => false
    case Some(Num(n)) => n != 0
    case Some(Text(s)) => s != ""
  }

  /** `String(id)`: an absent id prints as "undefined". */
  function IdString(id: Option<Id>): string {
    match id
    case None => "undefined"
    case Some(Num(n)) => IntToString(n)
    case Some(Text(s)) => s
  }

  /** The `meta` property: the selected report's date and id, and an optional file name. */
  datatype Meta = Meta(date: Option<string>, healthDataID: Option<Id>, fileNameHint: Option<string>)

  const IdRequired := "Health Data ID is required."
  const NoDate := "report"

  /**
   * `buildLocalDatePart`, given what `new Date(value)` gives in local time
   * (None for an invalid date): "report" for a missing, empty or
   * unparseable value, otherwise the day as year-month-day.
   */
  function DatePart(value: Option<string>, parsed: Option<DateParts>): (p: string)
    ensures (value.None? || value.value == "" || parsed.None?) ==> p == NoDate
    ensures value.Some? && value.value != "" && parsed.Some? ==> p == DayLabel(parsed.value)
  {
    if value.None? || value.value == "" then NoDate
    else if parsed.None? then NoDate
    else DayLabel(parsed.value)
  }

  /** A day label always holds a dash, so it is never the "report" placeholder. */
  lemma DayLabelNotPlaceholder(d: DateParts)
    ensures DayLabel(d) != NoDate
  {
    var y := IntToString(d.year);
    assert DayLabel(d)[|y|] == '-';
    assert '-' !in NoDate;
  }

  /** The date part is "report" exactly when the date is missing, empty or unparseable. */
  lemma DatePartPlaceholder(value: Option<string>, parsed: Option<DateParts>)
    ensures DatePart(value, parsed) == NoDate <==> value.None? || value.value == "" || parsed.None?
  {
    if value.Some? && value.value != "" && parsed.Some? {
      DayLabelNotPlaceholder(parsed.value);
    }
  }

  /** For a four-digit year the date part reads back as the local year, month and day. */
  lemma DatePartFields(value: string, d: DateParts)
    requires value != "" && 1000 <= d.year <= 9999
    ensures var p := DatePart(Some(value), Some(d));
      |p| == 10 && p[4] == '-' && p[7] == '-' &&
      DigitsValue(p[..4]) == d.year && DigitsValue(p[5..7]) == d.month + 1 && DigitsValue(p[8..10]) == d.day
  {
    DayLabelShape(d);
  }

  /** The id the file name uses: `meta?.healthDataID ?? healthDataId`. */
  function NameId(meta: Option<Meta>, healthDataId: Option<Id>): (id: Option<Id>)
    ensures meta.Some? && meta.value.healthDataID.Some? ==> id == meta.value.healthDataID
    ensures (meta.None? || meta.value.healthDataID.None?) ==> id == healthDataId
  {
    if meta.Some? && meta.value.healthDataID.Some? then meta.value.healthDataID else healthDataId
  }

  /** The file name: a non-empty hint verbatim, otherwise "HealthReport_<id>_<date>.pdf". */
  function FileName(meta: Option<Meta>, healthDataId: Option<Id>, parsed: Option<DateParts>): (f: string)
    ensures meta.Some? && meta.value.fileNameHint.Some? && meta.value.fileNameHint.value != "" ==>
      f == meta.value.fileNameHint.value
  {
    if meta.Some? && meta.value.fileNameHint.Some? && meta.value.fileNameHint.value != "" then meta.value.fileNameHint.value
    else
      var date := if meta.None? then None else meta.value.date;
      "HealthReport_" + IdString(NameId(meta, healthDataId)) + "_" + DatePart(date, parsed) + ".pdf"
  }

  /** Without a hint the name starts with "HealthReport_" and the id, and ends with the date part and ".pdf". */
  lemma DefaultFileName(meta: Option<Meta>, healthDataId: Option<Id>, parsed: Option<DateParts>)
    requires meta.None? || meta.value.fileNameHint.None? || meta.value.fileNameHint.value == ""
    ensures var f := FileName(meta, healthDataId, parsed);
      var prefix := "HealthReport_" + IdString(NameId(meta, healthDataId)) + "_";
      var suffix := DatePart(if meta.None? then None else meta.value.date, parsed) + ".pdf";
      StartsWith(f, prefix) && EndsWith(f, suffix) && |f| == |prefix| + |suffix|
  {
    var f := FileName(meta, healthDataId, parsed);
    var prefix := "HealthReport_" + IdString(NameId(meta, healthDataId)) + "_";
    var suffix := DatePart(if meta.None? then None else meta.value.date, parsed) + ".pdf";
    assert f == prefix + suffix;
    assert f[..|prefix|] == prefix;
    assert f[|f| - |suffix|..] == suffix;
  }

  /** How a click ends: refused by the guard, or with the file saved or its generation failed. */
  datatype Outcome = Refused(message: string) | Saved(fileName: string) | Failed(fileName: string, message: string)

  /**
   * `handleDownload`, given whether flat report data was passed, what date
   * parsing gives, and the error the PDF generation raises, if any.
   */
  function HandleDownload(hasFlatData: bool, healthDataId: Option<Id>, meta: Option<Meta>,
                          parsed: Option<DateParts>, failure: Option<string>): (o: Outcome)
    ensures o.Refused? <==> !hasFlatData && !Truthy(healthDataId)
    ensures o.Refused? ==> o.message == IdRequired
    ensures !o.Refused? ==> o.fileName == FileName(meta, healthDataId, parsed)
    ensures o.Saved? <==> !o.Refused? && failure.None?
    ensures o.Failed? ==> o.message == failure.value
  {
    if !hasFlatData && !Truthy(healthDataId) then Refused(IdRequired)
    else
      var name := FileName(meta, healthDataId, parsed);
      match failure
      case None => Saved(name)
      case Some(message) => Failed(name, message)
  }

  /** What `onError` receives: the guard's or the failure's message, or null after a saved file. */
  function OnErrorArgument(o: Outcome): (arg: Option<string>)
    ensures arg.None? <==> o.Saved?
  {
    match o
    case Refused(message) => Some(message)
    case Saved(_) => None
    case Failed(_, message) => Some(message)
  }

  /** With neither flat data nor an id, only the guard's message is reported, whatever else is passed. */
  lemma GuardReportsOnly(healthDataId: Option<Id>, meta: Option<Meta>, parsed: Option<DateParts>, failure: Option<string>)
    requires !Truthy(healthDataId)
    ensures OnErrorArgument(HandleDownload(false, healthDataId, meta, parsed, failure)) == Some(IdRequired)
  {
  }
}
