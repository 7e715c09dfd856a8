/**
 * The report projection (components/ReportView.tsx): filter the logs by
 * teacher, course and subject, where the selector value "all" lets every
 * log through, then order them newest first.
 */
module Report {
  import opened Types
  import opened Seqs
  import opened Dates

  /** The three selectors of the report view, each "all" or an id. */
  datatype Selection = Selection(teacher: string, course: string, subject: string)

  /** The initial state of the selectors. */
  const Everything := Selection("all", "all", "all")

  /** One selector admits an id when it is "all" or that very id. */
  predicate Admits(selected: string, id: string) {
    selected == "all" || id == selected
  }

  predicate Matches(f: Selection, l: ContentLog) {
    Admits(f.teacher, l.teacherId) && Admits(f.course, l.courseId) && Admits(f.subject, l.subjectId)
  }

  /** In a newest-first sequence no log is newer than the first one. */
  lemma HeadIsNewest(parse: DateParser, s: seq<ContentLog>)
    requires |s| > 0 && AllDated(parse, s) && NewestFirst(parse, s)
    ensures forall l :: l in s ==> Millis(parse, l) <= Millis(parse, s[0])
  {
    forall l | l in s ensures Millis(parse, l) <= Millis(parse, s[0]) {
      var j :| 0 <= j < |s| && s[j] == l;
    }
  }

  /** Putting a log no older than any of `s` in front keeps the order. */
  lemma PrependNewest(parse: DateParser, y: ContentLog, s: seq<ContentLog>)
    requires Dated(parse, y) && AllDated(parse, s) && NewestFirst(parse, s)
    requires forall l :: l in s ==> Millis(parse, l) <= Millis(parse, y)
    ensures AllDated(parse, [y] + s) && NewestFirst(parse, [y] + s)
  {
    var r := [y] + s;
    forall i, j | 0 <= i < j < |r| ensures Millis(parse, r[j]) <= Millis(parse, r[i]) {
      assert r[j] == s[j - 1];
      if i > 0 { assert r[i] == s[i - 1]; }
    }
  }

  /** Places `x` into newest-first `s` ahead of every log not newer than it. */
  function InsertNewestFirst(parse: DateParser, x: ContentLog, s: seq<ContentLog>): (r: seq<ContentLog>)
    requires Dated(parse, x) && AllDated(parse, s) && NewestFirst(parse, s)
    ensures multiset(r) == multiset(s) + multiset{x}
    ensures AllDated(parse, r) && NewestFirst(parse, r)
  {
    if |s| == 0 then [x]
    else if Millis(parse, s[0]) <= Millis(parse, x) then
      HeadIsNewest(parse, s);
      PrependNewest(parse, x, s);
      [x] + s
    else
      assert s == [s[0]] + s[1..];
      TailNewestFirst(parse, s);
      var rest := InsertNewestFirst(parse, x, s[1..]);
      HeadIsNewest(parse, s);
      InsertedBelowHead(parse, x, s, rest);
      PrependNewest(parse, s[0], rest);
      [s[0]] + rest
  }

  /** Dropping the first log keeps a sequence dated and newest first. */
  lemma TailNewestFirst(parse: DateParser, s: seq<ContentLog>)
    requires |s| > 0 && AllDated(parse, s) && NewestFirst(parse, s)
    ensures AllDated(parse, s[1..]) && NewestFirst(parse, s[1..])
  {
    assert forall i :: 0 <= i < |s[1..]| ==> s[1..][i] == s[i + 1];
  }

  /** The tail with an older log inserted holds nothing newer than the head. */
  lemma InsertedBelowHead(parse: DateParser, x: ContentLog, s: seq<ContentLog>, rest: seq<ContentLog>)
    requires |s| > 0 && Dated(parse, x) && AllDated(parse, s) && AllDated(parse, rest)
    requires Millis(parse, x) < Millis(parse, s[0])
    requires forall l :: l in s ==> Millis(parse, l) <= Millis(parse, s[0])
    requires multiset(rest) == multiset(s[1..]) + multiset{x}
    ensures forall l :: l in rest ==> Millis(parse, l) <= Millis(parse, s[0])
  {
    forall l | l in rest ensures Millis(parse, l) <= Millis(parse, s[0]) {
      assert l in multiset(rest);
      if l != x {
        assert l in multiset(s[1..]);
        assert l in s[1..];
      }
    }
  }

  /**
   * `sort((a, b) => new Date(b.date).getTime() - new Date(a.date).getTime())`:
   * the same logs, newest first. Logs of equal date may come in any order.
   */
  function SortNewestFirst(parse: DateParser, logs: seq<ContentLog>): (r: seq<ContentLog>)
    requires AllDated(parse, logs)
    ensures multiset(r) == multiset(logs) && |r| == |logs|
    ensures AllDated(parse, r) && NewestFirst(parse, r)
  {
    if |logs| == 0 then []
    else
      assert logs == [logs[0]] + logs[1..];
      InsertNewestFirst(parse, logs[0], SortNewestFirst(parse, logs[1..]))
  }

  /** The logs a selection admits, in their stored order. */
  function Matching(logs: seq<ContentLog>, f: Selection): seq<ContentLog> {
    Filter(logs, l => Matches(f, l))
  }

  /** A sequence of dated logs stays dated under filtering. */
  lemma FilterKeepsDated(parse: DateParser, logs: seq<ContentLog>, p: ContentLog -> bool)
    requires AllDated(parse, logs)
    ensures AllDated(parse, Filter(logs, p))
  {
    FilterMembers(logs, p);
  }

  /** `filteredLogs`: the three filters in turn, then newest first. */
  function FilteredLogs(logs: seq<ContentLog>, f: Selection, parse: DateParser): (r: seq<ContentLog>)
    requires AllDated(parse, logs)
    ensures AllDated(parse, r) && NewestFirst(parse, r)
    ensures r == SortNewestFirst(parse, Matching(logs, f))
    ensures multiset(r) == multiset(Matching(logs, f))
    ensures |r| <= |logs|
  {
    var byTeacher := Filter(logs, (l: ContentLog) => Admits(f.teacher, l.teacherId));
    var byCourse := Filter(byTeacher, (l: ContentLog) => Admits(f.course, l.courseId));
    var bySubject := Filter(byCourse, (l: ContentLog) => Admits(f.subject, l.subjectId));
    FilterTwice(logs, (l: ContentLog) => Admits(f.teacher, l.teacherId), (l: ContentLog) => Admits(f.course, l.courseId),
      (l: ContentLog) => Admits(f.teacher, l.teacherId) && Admits(f.course, l.courseId));
    FilterTwice(logs, (l: ContentLog) => Admits(f.teacher, l.teacherId) && Admits(f.course, l.courseId),
      (l: ContentLog) => Admits(f.subject, l.subjectId), l => Matches(f, l));
    assert bySubject == Matching(logs, f);
    FilterKeepsDated(parse, logs, l => Matches(f, l));
    SortNewestFirst(parse, bySubject)
  }

  /** Every reported log passes each selector that is not "all". */
  lemma FilteredLogsSound(logs: seq<ContentLog>, f: Selection, parse: DateParser)
    requires AllDated(parse, logs)
    ensures forall l :: l in FilteredLogs(logs, f, parse) ==>
      && (f.teacher != "all" ==> l.teacherId == f.teacher)
      && (f.course != "all" ==> l.courseId == f.course)
      && (f.subject != "all" ==> l.subjectId == f.subject)
  {
    var r := FilteredLogs(logs, f, parse);
    var m := Matching(logs, f);
    FilterMembers(logs, l => Matches(f, l));
    forall l | l in r ensures Matches(f, l) {
      assert l in multiset(r);
      assert l in m;
    }
  }

  /** Every stored log that passes all three selectors is reported, as often as it is stored. */
  lemma FilteredLogsComplete(logs: seq<ContentLog>, f: Selection, parse: DateParser)
    requires AllDated(parse, logs)
    ensures forall l :: l in logs && Matches(f, l) ==> l in FilteredLogs(logs, f, parse)
    ensures forall l :: Matches(f, l) ==> multiset(FilteredLogs(logs, f, parse))[l] == multiset(logs)[l]
  {
    var r := FilteredLogs(logs, f, parse);
    var m := Matching(logs, f);
    forall l | Matches(f, l) ensures multiset(r)[l] == multiset(logs)[l] {
      FilterMultiplicity(logs, l => Matches(f, l), l);
    }
    forall l | l in logs && Matches(f, l) ensures l in r {
      assert l in multiset(logs);
    }
  }

  /** With every selector on "all" the report holds every log. */
  lemma EverythingReportsAllLogs(logs: seq<ContentLog>, parse: DateParser)
    requires AllDated(parse, logs)
    ensures multiset(FilteredLogs(logs, Everything, parse)) == multiset(logs)
  {
    assert forall i :: 0 <= i < |logs| ==> Matches(Everything, logs[i]);
    FilterKeepsAll(logs, l => Matches(Everything, l));
    assert Matching(logs, Everything) == logs;
  }
}
