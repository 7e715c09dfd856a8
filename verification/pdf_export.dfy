/**
 * What the PDF export renders (components/PdfExport.tsx): the logs in scope,
 * newest first, a title and a file name. The date in the file name, the
 * ISO date of "now", is the parameter `isoDate`.
 */
module PdfExport {
  import opened Wrappers
  import opened Text
  import opened Types
  import opened Seqs
  import opened Dates
  import Report
  import ExportModal

  const CompleteTitle := "Reporte Completo de Registro de Contenidos"
  const TeacherTitlePrefix := "Reporte de Contenidos - "
  const NoRecordsMessage := "No hay registros para exportar para la selección actual."

  function CompleteFileName(isoDate: string): string {
    "reporte_completo_" + isoDate + ".pdf"
  }

  /** `reporte_<name with white space as _>_<date>.pdf`. */
  function TeacherFileName(name: string, isoDate: string): string {
    "reporte_" + UnderscoreSpaces(name) + "_" + isoDate + ".pdf"
  }

  /** `teachers.find(t => t.id === id)`: the first teacher with that id. */
  function FindTeacher(teachers: seq<Teacher>, id: string): (r: Option<Teacher>)
    ensures r.Some? ==> r.value in teachers && r.value.id == id
    ensures r.Some? ==> exists i :: 0 <= i < |teachers| && teachers[i] == r.value && forall j :: 0 <= j < i ==> teachers[j].id != id
    ensures r.None? <==> id !in Ids(teachers)
  {
    if |teachers| == 0 then None
    else if teachers[0].id == id then Some(teachers[0])
    else
      assert forall i :: 0 < i < |teachers| ==> teachers[i] == teachers[1..][i - 1];
      assert Ids(teachers) == {teachers[0].id} + Ids(teachers[1..]);
      var r := FindTeacher(teachers[1..], id);
      if r.Some? then
        var k :| 0 <= k < |teachers[1..]| && teachers[1..][k] == r.value && forall j :: 0 <= j < k ==> teachers[1..][j].id != id;
        assert teachers[k + 1] == r.value && forall j :: 0 <= j < k + 1 ==> teachers[j].id != id;
        r
      else r
  }

  /** The logs of one teacher, in stored order. */
  function TeacherLogsOf(logs: seq<ContentLog>, teacherId: string): seq<ContentLog> {
    Filter(logs, (l: ContentLog) => l.teacherId == teacherId)
  }

  datatype ExportPlan = ExportPlan(logs: seq<ContentLog>, title: string, fileName: string)

  /**
   * The `useMemo` of the export: the complete report by default; a teacher's
   * own report when the configuration names a teacher that exists.
   */
  function PlanExport(d: AppData, config: ExportConfig, parse: DateParser, isoDate: string): (r: ExportPlan)
    requires AllDated(parse, d.contentLogs)
    ensures AllDated(parse, r.logs) && NewestFirst(parse, r.logs)
    ensures (config.AllLogs? || FindTeacher(d.teachers, config.teacherId).None?) ==>
      && multiset(r.logs) == multiset(d.contentLogs)
      && r.title == CompleteTitle
      && r.fileName == CompleteFileName(isoDate)
    ensures config.TeacherLogs? && FindTeacher(d.teachers, config.teacherId).Some? ==>
      var t := FindTeacher(d.teachers, config.teacherId).value;
      && multiset(r.logs) == multiset(TeacherLogsOf(d.contentLogs, config.teacherId))
      && r.title == TeacherTitlePrefix + t.name
      && r.fileName == TeacherFileName(t.name, isoDate)
  {
    match config
    case TeacherLogs(id) =>
      (match FindTeacher(d.teachers, id)
       case Some(t) =>
         var logs := TeacherLogsOf(d.contentLogs, id);
         Report.FilterKeepsDated(parse, d.contentLogs, (l: ContentLog) => l.teacherId == id);
         ExportPlan(Report.SortNewestFirst(parse, logs), TeacherTitlePrefix + t.name, TeacherFileName(t.name, isoDate))
       case None =>
         ExportPlan(Report.SortNewestFirst(parse, d.contentLogs), CompleteTitle, CompleteFileName(isoDate)))
    case AllLogs =>
      ExportPlan(Report.SortNewestFirst(parse, d.contentLogs), CompleteTitle, CompleteFileName(isoDate))
  }

  /** A teacher's report holds exactly that teacher's logs. */
  lemma TeacherPlanHoldsOnlyTeacherLogs(d: AppData, teacherId: string, parse: DateParser, isoDate: string)
    requires AllDated(parse, d.contentLogs) && teacherId in Ids(d.teachers)
    ensures var r := PlanExport(d, TeacherLogs(teacherId), parse, isoDate);
            && multiset(r.logs) == multiset(TeacherLogsOf(d.contentLogs, teacherId))
            && forall l :: l in r.logs <==> l in d.contentLogs && l.teacherId == teacherId
  {
    var r := PlanExport(d, TeacherLogs(teacherId), parse, isoDate);
    var m := TeacherLogsOf(d.contentLogs, teacherId);
    assert multiset(r.logs) == multiset(m);
    FilterMembers(d.contentLogs, (l: ContentLog) => l.teacherId == teacherId);
    forall l ensures l in r.logs <==> l in m {
      assert l in r.logs <==> l in multiset(r.logs);
      assert l in m <==> l in multiset(m);
    }
  }

  /**
   * A teacher's export shows the very sequence the report view shows with
   * that teacher selected and the other selectors on "all" (unless the id is
   * the literal "all", which the report view reads as no filter).
   */
  lemma TeacherPlanMatchesReportView(d: AppData, teacherId: string, parse: DateParser, isoDate: string)
    requires AllDated(parse, d.contentLogs) && teacherId in Ids(d.teachers) && teacherId != "all"
    ensures PlanExport(d, TeacherLogs(teacherId), parse, isoDate).logs
         == Report.FilteredLogs(d.contentLogs, Report.Selection(teacherId, "all", "all"), parse)
  {
    var f := Report.Selection(teacherId, "all", "all");
    FilterSame(d.contentLogs, (l: ContentLog) => l.teacherId == teacherId, l => Report.Matches(f, l));
  }

  /** The name part of a teacher's file name is the name with each white-space character made `_`. */
  lemma TeacherFileNameHasNoSpaceFromName(name: string, isoDate: string)
    ensures var f := TeacherFileName(name, isoDate);
      && |f| == 8 + |name| + 1 + |isoDate| + 4
      && f[..8] == "reporte_"
      && NoSpace(f[8..8 + |name|])
      && (forall i :: 0 <= i < |name| && !IsSpace(name[i]) ==> f[8 + i] == name[i])
      && (forall i :: 0 <= i < |name| && IsSpace(name[i]) ==> f[8 + i] == '_')
      && f[8 + |name|..] == "_" + isoDate + ".pdf"
      && (NoSpace(isoDate) ==> NoSpace(f))
  {
    var f := TeacherFileName(name, isoDate);
    var u := UnderscoreSpaces(name);
    assert f == "reporte_" + u + "_" + isoDate + ".pdf";
    assert f[8..8 + |name|] == u;
    if NoSpace(isoDate) {
      forall i | 0 <= i < |f| ensures !IsSpace(f[i]) {
        if i < 8 { assert f[i] == "reporte_"[i]; }
        else if i < 8 + |u| { assert f[i] == u[i - 8]; }
        else if i == 8 + |u| { assert f[i] == '_'; }
        else if i < 9 + |u| + |isoDate| { assert f[i] == isoDate[i - 9 - |u|]; }
        else { assert f[i] == ".pdf"[i - 9 - |u| - |isoDate|]; }
      }
    }
  }

  /** What happens once the export area is laid out: an alert, a saved file, and the finished signal. */
  datatype Outcome = Outcome(alert: Option<string>, savedFile: Option<string>, finished: bool)

  const RenderErrorMessage := "Hubo un error al generar el PDF. Revise la consola para más detalles."

  /**
   * `generatePdf`: with no log in scope nothing is rendered and the user is
   * told so; otherwise the file is saved unless the export area is missing or
   * rendering fails. The finished signal is raised on every path.
   */
  function Generate(plan: ExportPlan, areaFound: bool, renderSucceeds: bool): (r: Outcome)
    ensures r.finished
    ensures r.savedFile.Some? <==> areaFound && |plan.logs| > 0 && renderSucceeds
    ensures r.savedFile.Some? ==> r.savedFile.value == plan.fileName
    ensures |plan.logs| == 0 <==> r.alert == Some(NoRecordsMessage)
    ensures r.alert.Some? ==> r.savedFile.None?
    ensures areaFound && |plan.logs| > 0 && !renderSucceeds ==> r.alert == Some(RenderErrorMessage)
    ensures !areaFound && |plan.logs| > 0 ==> r.alert == None
  {
    if !areaFound || |plan.logs| == 0 then
      Outcome(if |plan.logs| == 0 then Some(NoRecordsMessage) else None, None, true)
    else if renderSucceeds then Outcome(None, Some(plan.fileName), true)
    else Outcome(Some(RenderErrorMessage), None, true)
  }

  /**
   * Choosing "by teacher" in the modal without touching the selector exports
   * the first teacher's own report.
   */
  lemma DefaultTeacherChoiceExportsFirstTeacher(d: AppData, parse: DateParser, isoDate: string)
    requires AllDated(parse, d.contentLogs) && |d.teachers| > 0 && d.teachers[0].id != ""
    ensures var choice := ExportModal.GenerateClick(ExportModal.ByTeacher, ExportModal.InitialTeacherSelection(d.teachers));
      var plan := PlanExport(d, choice.value, parse, isoDate);
      && choice == Ok(TeacherLogs(d.teachers[0].id))
      && multiset(plan.logs) == multiset(TeacherLogsOf(d.contentLogs, d.teachers[0].id))
      && plan.title == TeacherTitlePrefix + d.teachers[0].name
      && plan.fileName == TeacherFileName(d.teachers[0].name, isoDate)
  {
    assert d.teachers[0].id in Ids(d.teachers);
  }

  /** `handleExport` (App.tsx) opens the scope dialog only when a document with at least one log is loaded. */
  function CanOpenExport(app: Option<AppData>): (r: bool)
    ensures r <==> app.Some? && |app.value.contentLogs| > 0
  {
    app.Some? && |app.value.contentLogs| > 0
  }

  /** Once the dialog may open, the complete report is never empty, so it is saved when rendering succeeds. */
  lemma CompleteExportIsNeverEmpty(app: Option<AppData>, parse: DateParser, isoDate: string)
    requires CanOpenExport(app) && AllDated(parse, app.value.contentLogs)
    ensures var plan := PlanExport(app.value, AllLogs, parse, isoDate);
      && multiset(plan.logs) == multiset(app.value.contentLogs)
      && |plan.logs| == |app.value.contentLogs| > 0
      && Generate(plan, true, true).savedFile == Some(CompleteFileName(isoDate))
  {
    var plan := PlanExport(app.value, AllLogs, parse, isoDate);
    assert |plan.logs| == |multiset(plan.logs)| == |multiset(app.value.contentLogs)|;
  }
}
