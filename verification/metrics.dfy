/**
 * The compliance figures of the dashboard (components/Dashboard.tsx). The
 * instant thirty days before "now" is the parameter `cutoff`; a log counts
 * as recent when its date parses to an instant at or after it.
 */
module Metrics {
  import opened Wrappers
  import opened Types
  import opened Seqs
  import opened Dates
  import opened ProgressBar
  import Mutations
  import Import

  /** Logs expected in thirty days for a teacher to be fully compliant. */
  const Baseline: nat := 20

  /** `new Date(log.date) >= thirtyDaysAgo`: false for an unparsable date, as NaN compares false. */
  predicate Recent(parse: DateParser, cutoff: int, l: ContentLog) {
    match parse(l.date)
    case Some(t) => t >= cutoff
    case None => false
  }

  /** The logs `calculateProgress` counts for one teacher. */
  function TeacherRecentLogs(teacherId: string, logs: seq<ContentLog>, parse: DateParser, cutoff: int): seq<ContentLog> {
    Filter(logs, (l: ContentLog) => l.teacherId == teacherId && Recent(parse, cutoff, l))
  }

  /** `calculateProgress`: the teacher's recent logs as a percentage of the baseline, capped at 100. */
  function Progress(teacherId: string, logs: seq<ContentLog>, parse: DateParser, cutoff: int): (r: int)
    ensures var n := |TeacherRecentLogs(teacherId, logs, parse, cutoff)|;
            && 0 <= r <= 100
            && (n < Baseline ==> r == 5 * n)
            && (n >= Baseline ==> r == 100)
  {
    var progress := |TeacherRecentLogs(teacherId, logs, parse, cutoff)| * 100 / Baseline;
    if progress < 100 then progress else 100
  }

  /** `totalLogs`. */
  function TotalLogs(logs: seq<ContentLog>): nat {
    |logs|
  }

  /** `recentLogsCount`: recent logs of any teacher. */
  function RecentLogsCount(logs: seq<ContentLog>, parse: DateParser, cutoff: int): (r: nat)
    ensures r <= TotalLogs(logs)
    ensures r == |set i | 0 <= i < |logs| && parse(logs[i].date).Some? && parse(logs[i].date).value >= cutoff|
  {
    var recent := (l: ContentLog) => Recent(parse, cutoff, l);
    var dated := set i | 0 <= i < |logs| && parse(logs[i].date).Some? && parse(logs[i].date).value >= cutoff;
    FilterCount(logs, recent);
    forall i ensures i in IndicesWhere(logs, recent) <==> i in dated {
      if 0 <= i < |logs| {
        assert recent(logs[i]) == Recent(parse, cutoff, logs[i]);
      }
    }
    assert IndicesWhere(logs, recent) == dated;
    |Filter(logs, recent)|
  }

  /** Exactly the teacher's logs dated at or after the cutoff are counted. */
  lemma TeacherRecentLogsAreQualifying(teacherId: string, logs: seq<ContentLog>, parse: DateParser, cutoff: int)
    ensures forall l :: l in TeacherRecentLogs(teacherId, logs, parse, cutoff) <==>
      l in logs && l.teacherId == teacherId && parse(l.date).Some? && parse(l.date).value >= cutoff
  {
    FilterMembers(logs, (l: ContentLog) => l.teacherId == teacherId && Recent(parse, cutoff, l));
  }

  /**
   * A teacher's count, taken at the same cutoff or a later one (each
   * `calculateProgress` call reads the clock again), never exceeds the
   * dashboard's recent count.
   */
  lemma TeacherCountWithinRecentCount(teacherId: string, logs: seq<ContentLog>, parse: DateParser, cutoff: int, laterCutoff: int)
    requires cutoff <= laterCutoff
    ensures |TeacherRecentLogs(teacherId, logs, parse, laterCutoff)| <= RecentLogsCount(logs, parse, cutoff)
  {
    FilterStrongerIsShorter(logs, (l: ContentLog) => l.teacherId == teacherId && Recent(parse, laterCutoff, l), l => Recent(parse, cutoff, l));
  }

  /** Adding logs behind the existing ones never lowers a teacher's progress. */
  lemma ProgressNeverDrops(teacherId: string, logs: seq<ContentLog>, longer: seq<ContentLog>, parse: DateParser, cutoff: int)
    requires logs <= longer
    ensures Progress(teacherId, logs, parse, cutoff) <= Progress(teacherId, longer, parse, cutoff)
  {
    assert longer == logs + longer[|logs|..];
    FilterConcat(logs, longer[|logs|..], (l: ContentLog) => l.teacherId == teacherId && Recent(parse, cutoff, l));
  }

  /** `addContentLog` never lowers any teacher's progress. */
  lemma AddContentLogNeverLowersProgress(d: AppData, log: ContentLog, teacherId: string, parse: DateParser, cutoff: int)
    ensures var e := Mutations.AddContentLog(Some(d), log).value;
            Progress(teacherId, d.contentLogs, parse, cutoff) <= Progress(teacherId, e.contentLogs, parse, cutoff)
  {
    ProgressNeverDrops(teacherId, d.contentLogs, d.contentLogs + [log], parse, cutoff);
  }

  /** A PDF import never lowers any teacher's progress. */
  lemma ImportNeverLowersProgress(d: AppData, rows: seq<Import.Row>, ids: seq<string>, teacherId: string, parse: DateParser, cutoff: int)
    requires |ids| >= 4 * |rows|
    ensures var e := Import.Import(d, rows, ids).data;
            Progress(teacherId, d.contentLogs, parse, cutoff) <= Progress(teacherId, e.contentLogs, parse, cutoff)
  {
    ProgressNeverDrops(teacherId, d.contentLogs, Import.Import(d, rows, ids).data.contentLogs, parse, cutoff);
  }

  /** The progress bar's clamp leaves every progress value as it is. */
  lemma SafePercentageKeepsProgress(teacherId: string, logs: seq<ContentLog>, parse: DateParser, cutoff: int)
    ensures SafePercentage(Progress(teacherId, logs, parse, cutoff)) == Progress(teacherId, logs, parse, cutoff)
  {
  }

  /** The figures the dashboard shows. */
  datatype Summary = Summary(total: nat, recent: nat, progress: seq<int>)

  /**
   * The dashboard: the counters at `cutoff`, then one progress value per
   * teacher, in teacher order. Each `calculateProgress` call reads the clock
   * again, so teacher `i` is measured at its own `progressCutoffs[i]`, read
   * after `cutoff`.
   */
  function Summarize(teachers: seq<Teacher>, logs: seq<ContentLog>, parse: DateParser, cutoff: int, progressCutoffs: seq<int>): (r: Summary)
    requires |progressCutoffs| == |teachers|
    requires forall i :: 0 <= i < |teachers| ==> cutoff <= progressCutoffs[i]
    ensures r.total == |logs| && r.recent == RecentLogsCount(logs, parse, cutoff) && r.recent <= r.total
    ensures |r.progress| == |teachers|
    ensures forall i :: 0 <= i < |teachers| ==> r.progress[i] == Progress(teachers[i].id, logs, parse, progressCutoffs[i])
    ensures forall i :: 0 <= i < |teachers| ==> 0 <= r.progress[i] <= 100 && r.progress[i] <= 5 * r.recent
  {
    var progress := seq(|teachers|, i requires 0 <= i < |teachers| => Progress(teachers[i].id, logs, parse, progressCutoffs[i]));
    var r := Summary(TotalLogs(logs), RecentLogsCount(logs, parse, cutoff), progress);
    assert forall i :: 0 <= i < |teachers| ==> r.progress[i] <= 5 * r.recent by {
      forall i | 0 <= i < |teachers| ensures r.progress[i] <= 5 * r.recent {
        TeacherCountWithinRecentCount(teachers[i].id, logs, parse, cutoff, progressCutoffs[i]);
      }
    }
    r
  }
}
