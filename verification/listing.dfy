/** The grouped report of a task collection (`Display for Tasks` in
    src/tasks.rs): finished tasks bucketed by day in ascending key order,
    then the tasks in progress, then the tasks to do. */
module Listing {
  import opened Seqs
  import opened StringOrder
  import opened Tasks

  /** The bucket key of a finished task: chrono's `format("%a (%y-%m-%d)")`
      of its `updated_at`, left abstract. */
  type DateKey = Timestamp -> string

  const NoTasksFound: string := "\nNo tasks found!\n"

  /** The heading a task is listed under. */
  datatype Heading = DoneOn(day: string) | InProgressHeading | TodoHeading

  function HeadingOf(t: Task, dateKey: DateKey): Heading {
    match t.status
    case Done => DoneOn(dateKey(t.updatedAt))
    case InProgress => InProgressHeading
    case Todo => TodoHeading
  }

  function Title(h: Heading): string {
    match h
    case DoneOn(day) => "Done " + day
    case InProgressHeading => "In Progress"
    case TodoHeading => "Todo"
  }

  /** The divider length written under a heading (`date.len() + 5`, 11 and 4):
      it always underlines the title exactly. */
  function DividerWidth(h: Heading): (w: nat)
    ensures w == |Title(h)|
  {
    match h
    case DoneOn(day) => |day| + 5
    case InProgressHeading => 11
    case TodoHeading => 4
  }

  /** The order in which headings appear in the report. */
  predicate Precedes(a: Heading, b: Heading) {
    match (a, b)
    case (DoneOn(x), DoneOn(y)) => Less(x, y)
    case (DoneOn(_), _) => true
    case (InProgressHeading, TodoHeading) => true
    case _ => false
  }

  /** `self.tasks.iter().filter(|t| t.status == s)`. */
  function WithStatus(ts: seq<Task>, s: Status): seq<Task> {
    Filter(ts, (t: Task) => t.status == s)
  }

  /** The tasks listed under heading `h`, in collection order. */
  function Under(ts: seq<Task>, dateKey: DateKey, h: Heading): seq<Task> {
    Filter(ts, (t: Task) => HeadingOf(t, dateKey) == h)
  }

  lemma UnderSnoc(ts: seq<Task>, t: Task, dateKey: DateKey, h: Heading)
    ensures Under(ts + [t], dateKey, h) == Under(ts, dateKey, h) + (if HeadingOf(t, dateKey) == h then [t] else [])
  {
    FilterSnoc(ts, t, (t: Task) => HeadingOf(t, dateKey) == h);
  }

  /** The keys of the day buckets: exactly the days some finished task is
      listed under. */
  function DoneDays(ts: seq<Task>, dateKey: DateKey): (days: set<string>)
    ensures forall d :: d in days <==> Under(ts, dateKey, DoneOn(d)) != []
  {
    if ts == [] then {}
    else
      var ts', t := ts[..|ts| - 1], ts[|ts| - 1];
      assert ts == ts' + [t];
      assert forall d :: Under(ts, dateKey, DoneOn(d)) == Under(ts', dateKey, DoneOn(d)) + (if HeadingOf(t, dateKey) == DoneOn(d) then [t] else []) by {
        forall d {
          UnderSnoc(ts', t, dateKey, DoneOn(d));
        }
      }
      DoneDays(ts', dateKey) + (if t.status == Done then {dateKey(t.updatedAt)} else {})
  }

  /** A heading with the tasks listed under it. */
  datatype Section = Section(heading: Heading, tasks: seq<Task>)

  function Lines(ts: seq<Task>): string {
    ConcatMap(ts, TaskLine)
  }

  /** A heading's title on a line of its own, underlined by a divider. */
  function HeaderText(h: Heading): string {
    "\n" + Title(h) + "\n" + Divider(DividerWidth(h)) + "\n"
  }

  function SectionText(s: Section): string {
    HeaderText(s.heading) + Lines(s.tasks)
  }

  function Text(ss: seq<Section>): string {
    ConcatMap(ss, SectionText)
  }

  function AllTasks(ss: seq<Section>): seq<Task> {
    if ss == [] then [] else AllTasks(ss[..|ss| - 1]) + ss[|ss| - 1].tasks
  }

  function DoneHeadings(days: seq<string>): (hs: seq<Heading>)
    ensures |hs| == |days|
    ensures forall i | 0 <= i < |days| :: hs[i] == DoneOn(days[i])
  {
    seq(|days|, i requires 0 <= i < |days| => DoneOn(days[i]))
  }

  function SectionsFor(hs: seq<Heading>, ts: seq<Task>, dateKey: DateKey): (ss: seq<Section>)
    ensures |ss| == |hs|
    ensures forall i | 0 <= i < |hs| :: ss[i] == Section(hs[i], Under(ts, dateKey, hs[i]))
  {
    seq(|hs|, i requires 0 <= i < |hs| => Section(hs[i], Under(ts, dateKey, hs[i])))
  }

  /** The headings the report prints, in order: one per day bucket in
      ascending key order, then "In Progress" and "Todo" when non-empty. */
  ghost function Headings(ts: seq<Task>, dateKey: DateKey): seq<Heading> {
    DoneHeadings(SortedKeys(DoneDays(ts, dateKey)))
    + (if |WithStatus(ts, InProgress)| > 0 then [InProgressHeading] else [])
    + (if |WithStatus(ts, Todo)| > 0 then [TodoHeading] else [])
  }

  ghost function Sections(ts: seq<Task>, dateKey: DateKey): seq<Section> {
    SectionsFor(Headings(ts, dateKey), ts, dateKey)
  }

  /** The text `Display for Tasks` writes. */
  ghost function Report(ts: seq<Task>, dateKey: DateKey): string {
    Text(Sections(ts, dateKey))
    + (if |WithStatus(ts, Done)| + |WithStatus(ts, InProgress)| + |WithStatus(ts, Todo)| == 0
       then NoTasksFound else "")
  }

  // ---------------------------------------------------------------------
  // Rendering, step by step as the formatter is written to.

  /** Collects the tasks with status `s` in collection order. */
  method Select(ts: seq<Task>, s: Status) returns (group: seq<Task>)
    ensures group == WithStatus(ts, s)
  {
    group := [];
    for i := 0 to |ts|
      invariant group == WithStatus(ts[..i], s)
    {
      FilterSnoc(ts[..i], ts[i], (t: Task) => t.status == s);
      assert ts[..i + 1] == ts[..i] + [ts[i]];
      if ts[i].status == s {
        group := group + [ts[i]];
      }
    }
    assert ts[..|ts|] == ts;
  }

  /** Writes one line per task (`for_each(|t| t.fmt(f))`). */
  method WriteLines(out: string, group: seq<Task>) returns (r: string)
    ensures r == out + Lines(group)
  {
    r := out;
    for j := 0 to |group|
      invariant r == out + Lines(group[..j])
    {
      assert group[..j + 1] == group[..j] + [group[j]];
      ConcatMapSnoc(group[..j], group[j], TaskLine);
      r := r + TaskLine(group[j]);
    }
    assert group[..|group|] == group;
  }

  lemma TextSnoc(ss: seq<Section>, s: Section)
    ensures Text(ss + [s]) == Text(ss) + SectionText(s)
  {
    ConcatMapSnoc(ss, s, SectionText);
  }

  lemma TextAppend(a: seq<Section>, b: seq<Section>)
    ensures Text(a + b) == Text(a) + Text(b)
  {
    ConcatMapAppend(a, b, SectionText);
  }

  lemma SectionsForAppend(a: seq<Heading>, b: seq<Heading>, ts: seq<Task>, dateKey: DateKey)
    ensures SectionsFor(a + b, ts, dateKey) == SectionsFor(a, ts, dateKey) + SectionsFor(b, ts, dateKey)
  {
  }

  /** The "In Progress" and "Todo" groups are the tasks under their headings. */
  lemma StatusGroupIsUnder(ts: seq<Task>, dateKey: DateKey, s: Status, h: Heading)
    requires (s == InProgress && h == InProgressHeading) || (s == Todo && h == TodoHeading)
    ensures WithStatus(ts, s) == Under(ts, dateKey, h)
  {
    FilterEquivalent(ts, (t: Task) => t.status == s, (t: Task) => HeadingOf(t, dateKey) == h);
  }

  /** Writes the header of a status group when it is non-empty, then its lines. */
  method WriteStatusGroup(out: string, ts: seq<Task>, dateKey: DateKey, s: Status, h: Heading)
    returns (r: string, group: seq<Task>)
    requires (s == InProgress && h == InProgressHeading) || (s == Todo && h == TodoHeading)
    ensures group == WithStatus(ts, s)
    ensures r == out + Text(SectionsFor(if |group| > 0 then [h] else [], ts, dateKey))
  {
    group := Select(ts, s);
    StatusGroupIsUnder(ts, dateKey, s, h);
    if |group| > 0 {
      var divider := DividerString(DividerWidth(h));
      var header := "\n" + Title(h) + "\n" + divider + "\n";
      r := WriteLines(out + header, group);
      var section := Section(h, group);
      assert r == out + SectionText(section);
      assert SectionsFor([h], ts, dateKey) == [section];
      TextSnoc([], section);
      assert [] + [section] == [section];
      assert Text([section]) == SectionText(section);
      assert r == out + Text(SectionsFor([h], ts, dateKey));
    } else {
      r := WriteLines(out, group);
      assert SectionsFor([], ts, dateKey) == [];
      assert Text([]) == "";
      assert r == out + Text(SectionsFor([], ts, dateKey));
    }
  }

  /** `entry(day).or_insert(Vec::new()).push(t)` on a map of buckets. */
  function PushToBucket(byDate: map<string, seq<Task>>, day: string, t: Task): (r: map<string, seq<Task>>)
    ensures r.Keys == byDate.Keys + {day}
    ensures r[day] == (if day in byDate then byDate[day] else []) + [t]
    ensures forall d | d in byDate && d != day :: r[d] == byDate[d]
  {
    byDate[day := (if day in byDate then byDate[day] else []) + [t]]
  }

  /** Buckets that hold, per day, the finished tasks of `ts` listed under it. */
  ghost predicate BucketsOf(byDate: map<string, seq<Task>>, ts: seq<Task>, dateKey: DateKey) {
    && byDate.Keys == DoneDays(ts, dateKey)
    && forall d | d in byDate :: byDate[d] == Under(ts, dateKey, DoneOn(d))
  }

  lemma BucketStep(byDate: map<string, seq<Task>>, ts: seq<Task>, t: Task, dateKey: DateKey)
    requires BucketsOf(byDate, ts, dateKey)
    ensures t.status == Done ==> BucketsOf(PushToBucket(byDate, dateKey(t.updatedAt), t), ts + [t], dateKey)
    ensures t.status != Done ==> BucketsOf(byDate, ts + [t], dateKey)
  {
    assert (ts + [t])[..|ts|] == ts;
    forall d
      ensures Under(ts + [t], dateKey, DoneOn(d)) == Under(ts, dateKey, DoneOn(d)) + (if HeadingOf(t, dateKey) == DoneOn(d) then [t] else [])
    {
      UnderSnoc(ts, t, dateKey, DoneOn(d));
    }
  }

  lemma BucketStepAt(byDate: map<string, seq<Task>>, ts: seq<Task>, i: nat, dateKey: DateKey)
    requires i < |ts| && BucketsOf(byDate, ts[..i], dateKey)
    ensures ts[i].status == Done ==> BucketsOf(PushToBucket(byDate, dateKey(ts[i].updatedAt), ts[i]), ts[..i + 1], dateKey)
    ensures ts[i].status != Done ==> BucketsOf(byDate, ts[..i + 1], dateKey)
  {
    BucketStep(byDate, ts[..i], ts[i], dateKey);
    assert ts[..i + 1] == ts[..i] + [ts[i]];
  }

  /** Fills `done_tasks_by_dates`: each finished task goes onto the bucket of its day. */
  method BucketByDate(ts: seq<Task>, dateKey: DateKey) returns (byDate: map<string, seq<Task>>)
    ensures byDate.Keys == DoneDays(ts, dateKey)
    ensures forall d | d in byDate :: byDate[d] == Under(ts, dateKey, DoneOn(d))
  {
    byDate := map[];
    for i := 0 to |ts|
      invariant BucketsOf(byDate, ts[..i], dateKey)
    {
      BucketStepAt(byDate, ts, i, dateKey);
      if ts[i].status == Done {
        byDate := PushToBucket(byDate, dateKey(ts[i].updatedAt), ts[i]);
      }
    }
    assert ts[..|ts|] == ts;
  }

  /** The header line `write!(f, "\nDone {}\n{}\n", date, divider)` writes. */
  lemma DoneHeader(date: string, divider: string)
    requires divider == Divider(|date| + 5)
    ensures "\nDone " + date + "\n" + divider + "\n" == HeaderText(DoneOn(date))
  {
    assert "\nDone " + date == "\n" + ("Done " + date);
  }

  /** The text of the day buckets `days`, one section each, built from the
      back as the bucket loop builds it. It is the same text as
      `Text(SectionsFor(DoneHeadings(days), ..))` (`DoneTextIsText`) and
      serves only as that loop's invariant. */
  function DoneText(days: seq<string>, ts: seq<Task>, dateKey: DateKey): string {
    if days == [] then ""
    else
      var day := days[|days| - 1];
      DoneText(days[..|days| - 1], ts, dateKey) + SectionText(Section(DoneOn(day), Under(ts, dateKey, DoneOn(day))))
  }

  lemma DoneTextSnoc(days: seq<string>, day: string, ts: seq<Task>, dateKey: DateKey)
    ensures DoneText(days + [day], ts, dateKey)
         == DoneText(days, ts, dateKey) + SectionText(Section(DoneOn(day), Under(ts, dateKey, DoneOn(day))))
  {
    assert (days + [day])[..|days|] == days;
  }

  lemma {:induction false} DoneTextIsText(days: seq<string>, ts: seq<Task>, dateKey: DateKey)
    ensures DoneText(days, ts, dateKey) == Text(SectionsFor(DoneHeadings(days), ts, dateKey))
  {
    if days == [] {
      assert SectionsFor(DoneHeadings(days), ts, dateKey) == [];
    } else {
      var days', day := days[..|days| - 1], days[|days| - 1];
      assert days == days' + [day];
      var section := Section(DoneOn(day), Under(ts, dateKey, DoneOn(day)));
      calc {
        DoneText(days, ts, dateKey);
        DoneText(days', ts, dateKey) + SectionText(section);
        { DoneTextIsText(days', ts, dateKey); }
        Text(SectionsFor(DoneHeadings(days'), ts, dateKey)) + SectionText(section);
        { DoneSectionsSnoc(days', day, ts, dateKey); }
        Text(SectionsFor(DoneHeadings(days' + [day]), ts, dateKey));
      }
    }
  }

  /** Adding one day bucket at the end adds its section's text at the end. */
  lemma DoneSectionsSnoc(days: seq<string>, date: string, ts: seq<Task>, dateKey: DateKey)
    ensures Text(SectionsFor(DoneHeadings(days + [date]), ts, dateKey))
         == Text(SectionsFor(DoneHeadings(days), ts, dateKey)) + SectionText(Section(DoneOn(date), Under(ts, dateKey, DoneOn(date))))
  {
    var section := Section(DoneOn(date), Under(ts, dateKey, DoneOn(date)));
    assert SectionsFor(DoneHeadings(days + [date]), ts, dateKey)
        == SectionsFor(DoneHeadings(days), ts, dateKey) + [section];
    TextSnoc(SectionsFor(DoneHeadings(days), ts, dateKey), section);
  }

  /** Writes one day bucket under its "Done <day>" header. */
  method WriteBucket(out: string, date: string, bucket: seq<Task>) returns (r: string)
    ensures r == out + SectionText(Section(DoneOn(date), bucket))
  {
    var divider := DividerString(|date| + 5);
    var header := "\nDone " + date + "\n" + divider + "\n";
    DoneHeader(date, divider);
    r := WriteLines(out + header, bucket);
    assert (out + header) + Lines(bucket) == out + (header + Lines(bucket));
  }

  lemma SnocAssoc<T>(a: seq<T>, x: T, b: seq<T>)
    ensures a + ([x] + b) == (a + [x]) + b
  {
  }

  /** Writes the day buckets in ascending key order. */
  method WriteDoneBuckets(ts: seq<Task>, dateKey: DateKey, byDate: map<string, seq<Task>>)
    returns (r: string)
    requires BucketsOf(byDate, ts, dateKey)
    ensures r == Text(SectionsFor(DoneHeadings(SortedKeys(DoneDays(ts, dateKey))), ts, dateKey))
  {
    r := "";
    var remaining := byDate.Keys;
    ghost var days: seq<string> := [];
    while remaining != {}
      invariant remaining <= byDate.Keys
      invariant SortedKeys(byDate.Keys) == days + SortedKeys(remaining)
      invariant r == DoneText(days, ts, dateKey)
      decreases |remaining|
    {
      var date := SmallestKey(remaining);
      SortedKeysStep(remaining, date);
      SnocAssoc(days, date, SortedKeys(remaining - {date}));
      r := WriteBucket(r, date, byDate[date]);
      DoneTextSnoc(days, date, ts, dateKey);
      days := days + [date];
      remaining := remaining - {date};
    }
    assert days == SortedKeys(byDate.Keys);
    DoneTextIsText(days, ts, dateKey);
  }

  /** The report is the day buckets' text, then the in-progress and to-do
      groups' text, then the closing line. */
  lemma ReportParts(ts: seq<Task>, dateKey: DateKey)
    ensures var body :=
              Text(SectionsFor(DoneHeadings(SortedKeys(DoneDays(ts, dateKey))), ts, dateKey))
              + Text(SectionsFor(if |WithStatus(ts, InProgress)| > 0 then [InProgressHeading] else [], ts, dateKey))
              + Text(SectionsFor(if |WithStatus(ts, Todo)| > 0 then [TodoHeading] else [], ts, dateKey));
            Report(ts, dateKey)
            == if |WithStatus(ts, Done)| + |WithStatus(ts, InProgress)| + |WithStatus(ts, Todo)| == 0
               then body + NoTasksFound else body
  {
    var done := DoneHeadings(SortedKeys(DoneDays(ts, dateKey)));
    var ip := if |WithStatus(ts, InProgress)| > 0 then [InProgressHeading] else [];
    var todo := if |WithStatus(ts, Todo)| > 0 then [TodoHeading] else [];
    assert Headings(ts, dateKey) == done + ip + todo;
    SectionsForAppend(done, ip, ts, dateKey);
    SectionsForAppend(done + ip, todo, ts, dateKey);
    TextAppend(SectionsFor(done, ts, dateKey), SectionsFor(ip, ts, dateKey));
    TextAppend(SectionsFor(done + ip, ts, dateKey), SectionsFor(todo, ts, dateKey));
  }

  /** `Display for Tasks`: buckets the finished tasks by day in a map, writes
      the buckets in ascending key order, then the in-progress and to-do
      groups, then the "No tasks found!" line when nothing was counted. */
  method Render(ts: seq<Task>, dateKey: DateKey) returns (out: string)
    ensures out == Report(ts, dateKey)
  {
    var byDate := BucketByDate(ts, dateKey);
    out := WriteDoneBuckets(ts, dateKey, byDate);
    var inProgress, todo, done;
    out, inProgress := WriteStatusGroup(out, ts, dateKey, InProgress, InProgressHeading);
    out, todo := WriteStatusGroup(out, ts, dateKey, Todo, TodoHeading);
    done := Select(ts, Done);
    if |done| + |inProgress| + |todo| == 0 {
      out := out + NoTasksFound;
    }
    ReportParts(ts, dateKey);
  }
}
