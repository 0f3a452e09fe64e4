/** What the grouped report promises: sections in a fixed order, no empty
    section, every task in exactly one section, "No tasks found!" exactly
    for the empty collection. */
module ListingProperties {
  import opened Seqs
  import opened StringOrder
  import opened Tasks
  import opened Listing

  lemma WithStatusSnoc(ts: seq<Task>, t: Task, s: Status)
    ensures WithStatus(ts + [t], s) == WithStatus(ts, s) + (if t.status == s then [t] else [])
  {
    FilterSnoc(ts, t, (t: Task) => t.status == s);
  }

  /** The three status filters split the collection: each task is in exactly
      one of them. */
  lemma {:induction false} StatusPartition(ts: seq<Task>)
    ensures multiset(ts) == multiset(WithStatus(ts, Done)) + multiset(WithStatus(ts, InProgress)) + multiset(WithStatus(ts, Todo))
  {
    if ts != [] {
      var ts', t := ts[..|ts| - 1], ts[|ts| - 1];
      assert ts == ts' + [t];
      StatusPartition(ts');
      WithStatusSnoc(ts', t, Done);
      WithStatusSnoc(ts', t, InProgress);
      WithStatusSnoc(ts', t, Todo);
    }
  }

  /** The three status counts add up to the collection's length. */
  lemma StatusCounts(ts: seq<Task>)
    ensures |WithStatus(ts, Done)| + |WithStatus(ts, InProgress)| + |WithStatus(ts, Todo)| == |ts|
  {
    StatusPartition(ts);
    assert |multiset(ts)| == |ts|;
  }

  lemma {:induction false} FilterNonEmpty<T>(s: seq<T>, p: T -> bool, i: nat)
    requires i < |s| && p(s[i])
    ensures Filter(s, p) != []
  {
    if i < |s| - 1 {
      FilterNonEmpty(s[..|s| - 1], p, i);
    }
  }

  lemma AllTasksSnoc(ss: seq<Section>, s: Section)
    ensures AllTasks(ss + [s]) == AllTasks(ss) + s.tasks
  {
    assert (ss + [s])[..|ss|] == ss;
  }

  /** Day headings over strictly ascending days, then the optional
      "In Progress" and "Todo" headings, are in report order. */
  lemma OrderedHeadings(days: seq<string>, ip: seq<Heading>, todo: seq<Heading>)
    requires forall i, j | 0 <= i < j < |days| :: Less(days[i], days[j])
    requires ip == [] || ip == [InProgressHeading]
    requires todo == [] || todo == [TodoHeading]
    ensures forall i, j | 0 <= i < j < |DoneHeadings(days) + ip + todo| ::
      Precedes((DoneHeadings(days) + ip + todo)[i], (DoneHeadings(days) + ip + todo)[j])
  {
    var done := DoneHeadings(days);
    var hs := done + ip + todo;
    forall i, j | 0 <= i < j < |hs|
      ensures Precedes(hs[i], hs[j])
    {
      if j < |done| {
        assert hs[i] == DoneOn(days[i]) && hs[j] == DoneOn(days[j]);
      } else if i < |done| {
        assert hs[i] == DoneOn(days[i]);
        assert hs[j] == (ip + todo)[j - |done|];
      } else {
        assert hs[i] == (ip + todo)[i - |done|] && hs[j] == (ip + todo)[j - |done|];
      }
    }
  }

  /** The order of the headings: the day buckets in strictly ascending key
      order, then "In Progress", then "Todo". */
  lemma HeadingsAscending(ts: seq<Task>, dateKey: DateKey)
    ensures forall i, j | 0 <= i < j < |Headings(ts, dateKey)| ::
      Precedes(Headings(ts, dateKey)[i], Headings(ts, dateKey)[j])
  {
    var days := SortedKeys(DoneDays(ts, dateKey));
    SortedKeysAscending(DoneDays(ts, dateKey));
    OrderedHeadings(days,
      if |WithStatus(ts, InProgress)| > 0 then [InProgressHeading] else [],
      if |WithStatus(ts, Todo)| > 0 then [TodoHeading] else []);
  }

  lemma PrecedesIrreflexive(h: Heading)
    ensures !Precedes(h, h)
  {
    if h.DoneOn? {
      LessIrreflexive(h.day);
    }
  }

  /** Every task of the collection has its heading in the report. */
  lemma EveryTaskHasAHeading(ts: seq<Task>, dateKey: DateKey, i: nat)
    requires i < |ts|
    ensures HeadingOf(ts[i], dateKey) in Headings(ts, dateKey)
  {
    var t := ts[i];
    var hs := Headings(ts, dateKey);
    var days := SortedKeys(DoneDays(ts, dateKey));
    var done := DoneHeadings(days);
    var ip := if |WithStatus(ts, InProgress)| > 0 then [InProgressHeading] else [];
    var todo := if |WithStatus(ts, Todo)| > 0 then [TodoHeading] else [];
    assert hs == done + ip + todo;
    match t.status
    case Done =>
      var d := dateKey(t.updatedAt);
      FilterNonEmpty(ts, (t: Task) => HeadingOf(t, dateKey) == DoneOn(d), i);
      assert d in DoneDays(ts, dateKey);
      SortedKeysComplete(DoneDays(ts, dateKey), d);
      var k :| 0 <= k < |days| && days[k] == d;
      assert done[k] == DoneOn(d);
    case InProgress =>
      FilterNonEmpty(ts, (t: Task) => t.status == InProgress, i);
      assert ip == [InProgressHeading];
    case Todo =>
      FilterNonEmpty(ts, (t: Task) => t.status == Todo, i);
      assert todo == [TodoHeading];
  }

  lemma HeadingHasTasks(ts: seq<Task>, dateKey: DateKey, i: nat)
    requires i < |Headings(ts, dateKey)|
    ensures Under(ts, dateKey, Headings(ts, dateKey)[i]) != []
  {
    var days := SortedKeys(DoneDays(ts, dateKey));
    var ip := if |WithStatus(ts, InProgress)| > 0 then [InProgressHeading] else [];
    var todo := if |WithStatus(ts, Todo)| > 0 then [TodoHeading] else [];
    var hs := Headings(ts, dateKey);
    assert hs == DoneHeadings(days) + ip + todo;
    if i < |days| {
      assert hs[i] == DoneOn(days[i]) && days[i] in DoneDays(ts, dateKey);
    } else if hs[i] == InProgressHeading {
      StatusGroupIsUnder(ts, dateKey, InProgress, InProgressHeading);
    } else {
      assert hs[i] == TodoHeading;
      StatusGroupIsUnder(ts, dateKey, Todo, TodoHeading);
    }
  }

  /** A header is printed only above a non-empty group. */
  lemma SectionsNonEmpty(ts: seq<Task>, dateKey: DateKey)
    ensures forall i | 0 <= i < |Sections(ts, dateKey)| :: Sections(ts, dateKey)[i].tasks != []
  {
    forall i | 0 <= i < |Sections(ts, dateKey)|
      ensures Sections(ts, dateKey)[i].tasks != []
    {
      HeadingHasTasks(ts, dateKey, i);
    }
  }

  /** Each section holds exactly the tasks listed under its heading, in the
      order they have in the collection. */
  lemma SectionsKeepOrder(ts: seq<Task>, dateKey: DateKey)
    ensures forall i | 0 <= i < |Sections(ts, dateKey)| ::
      var s := Sections(ts, dateKey)[i];
      && (forall j | 0 <= j < |s.tasks| :: HeadingOf(s.tasks[j], dateKey) == s.heading)
      && Subsequence(s.tasks, ts)
  {
    var ss := Sections(ts, dateKey);
    forall i | 0 <= i < |ss|
      ensures Subsequence(ss[i].tasks, ts)
    {
      FilterIsSubsequence(ts, (t: Task) => HeadingOf(t, dateKey) == ss[i].heading);
    }
  }

  lemma {:induction false} NoTasksInSections(hs: seq<Heading>, dateKey: DateKey)
    ensures AllTasks(SectionsFor(hs, [], dateKey)) == []
  {
    if hs != [] {
      var hs', h := hs[..|hs| - 1], hs[|hs| - 1];
      assert hs == hs' + [h];
      SectionsForAppend(hs', [h], [], dateKey);
      NoTasksInSections(hs', dateKey);
      AllTasksSnoc(SectionsFor(hs', [], dateKey), Section(h, Under([], dateKey, h)));
    }
  }

  lemma AllTasksSnocHeading(hs: seq<Heading>, h: Heading, ts: seq<Task>, dateKey: DateKey)
    ensures AllTasks(SectionsFor(hs + [h], ts, dateKey)) == AllTasks(SectionsFor(hs, ts, dateKey)) + Under(ts, dateKey, h)
  {
    SectionsForAppend(hs, [h], ts, dateKey);
    AllTasksSnoc(SectionsFor(hs, ts, dateKey), Section(h, Under(ts, dateKey, h)));
  }

  /** One more task in the collection adds it to the section of its heading
      and to no other. */
  lemma {:induction false} SectionsSnocTask(hs: seq<Heading>, ts: seq<Task>, t: Task, dateKey: DateKey)
    requires forall i, j | 0 <= i < j < |hs| :: hs[i] != hs[j]
    ensures multiset(AllTasks(SectionsFor(hs, ts + [t], dateKey)))
         == multiset(AllTasks(SectionsFor(hs, ts, dateKey))) + (if HeadingOf(t, dateKey) in hs then multiset{t} else multiset{})
    decreases |hs|
  {
    if hs != [] {
      var hs', h := hs[..|hs| - 1], hs[|hs| - 1];
      assert hs == hs' + [h];
      SectionsSnocTask(hs', ts, t, dateKey);
      AllTasksSnocHeading(hs', h, ts + [t], dateKey);
      AllTasksSnocHeading(hs', h, ts, dateKey);
      UnderSnoc(ts, t, dateKey, h);
      var x := HeadingOf(t, dateKey);
      assert x in hs <==> x in hs' || x == h;
      assert x == h ==> x !in hs';
      MultisetStep(AllTasks(SectionsFor(hs', ts + [t], dateKey)), AllTasks(SectionsFor(hs', ts, dateKey)),
        Under(ts, dateKey, h), t, x in hs', x == h);
    }
  }

  lemma MultisetStep(a: seq<Task>, b: seq<Task>, u: seq<Task>, t: Task, inFront: bool, inLast: bool)
    requires multiset(a) == multiset(b) + (if inFront then multiset{t} else multiset{})
    requires !(inFront && inLast)
    ensures multiset(a + (u + (if inLast then [t] else [])))
         == multiset(b + u) + (if inFront || inLast then multiset{t} else multiset{})
  {
  }

  /** Sections over distinct headings that cover every task hold each task
      exactly once. */
  lemma {:induction false} CoveringSectionsPartition(hs: seq<Heading>, ts: seq<Task>, dateKey: DateKey)
    requires forall i, j | 0 <= i < j < |hs| :: hs[i] != hs[j]
    requires forall i | 0 <= i < |ts| :: HeadingOf(ts[i], dateKey) in hs
    ensures multiset(AllTasks(SectionsFor(hs, ts, dateKey))) == multiset(ts)
  {
    if ts == [] {
      NoTasksInSections(hs, dateKey);
    } else {
      var ts', t := ts[..|ts| - 1], ts[|ts| - 1];
      assert ts == ts' + [t];
      CoveringSectionsPartition(hs, ts', dateKey);
      SectionsSnocTask(hs, ts', t, dateKey);
    }
  }

  /** Every task is printed in exactly one section, so the report has one
      task line per task. */
  lemma SectionsPartition(ts: seq<Task>, dateKey: DateKey)
    ensures multiset(AllTasks(Sections(ts, dateKey))) == multiset(ts)
    ensures |AllTasks(Sections(ts, dateKey))| == |ts|
  {
    var hs := Headings(ts, dateKey);
    HeadingsAscending(ts, dateKey);
    forall i, j | 0 <= i < j < |hs|
      ensures hs[i] != hs[j]
    {
      PrecedesIrreflexive(hs[i]);
    }
    forall i | 0 <= i < |ts|
      ensures HeadingOf(ts[i], dateKey) in hs
    {
      EveryTaskHasAHeading(ts, dateKey, i);
    }
    CoveringSectionsPartition(hs, ts, dateKey);
    assert |multiset(AllTasks(Sections(ts, dateKey)))| == |AllTasks(Sections(ts, dateKey))|;
    assert |multiset(ts)| == |ts|;
  }

  /** "No tasks found!" closes the report exactly when the collection is
      empty, and only then is the report without sections. */
  lemma NoTasksFoundIffEmpty(ts: seq<Task>, dateKey: DateKey)
    ensures Report(ts, dateKey) == Text(Sections(ts, dateKey)) + (if ts == [] then NoTasksFound else "")
    ensures Sections(ts, dateKey) == [] <==> ts == []
  {
    StatusCounts(ts);
    SectionsPartition(ts, dateKey);
  }

  /** An empty collection renders as the one "No tasks found!" line. */
  lemma EmptyReport(dateKey: DateKey)
    ensures Report([], dateKey) == NoTasksFound
  {
    NoTasksFoundIffEmpty([], dateKey);
    assert Sections([], dateKey) == [];
  }

  /** The day keys start with the weekday name, so the buckets follow the
      alphabetical order of weekday names rather than the calendar: a Friday
      is printed before the Thursday that preceded it. */
  lemma DayKeysSortByWeekdayName()
    ensures Less("Fri (24-01-05)", "Thu (24-01-04)")
    ensures !Less("Thu (24-01-04)", "Fri (24-01-05)")
  {
  }
}
