# tindalos task tracker, modelled in Dafny

tindalos is a single-user command-line task tracker. It keeps one
collection of tasks. Each task has an id, a description, a status (todo, in
progress, done) and the time of its last update. `add` appends a new "todo"
task whose id is one more than the highest id. `start` and `finish` take the task with a given id
out of the collection, change its status, and push it back at the end. `list`
prints the collection grouped into sections: one section per day on which
tasks were finished, then "In Progress", then "Todo".

This project models those operations on the loaded collection, and the
text the listing writes. Its modules:

- `Tasks` holds the task types, the `Tasks` struct and the one-line task
  format.
  - The struct is a class `TaskCollection` whose `tasks` field the
    operations update in place.
  - `IdField` is `{:03}`: the id zero-filled to three digits, and always
    reading back as the id.
  - `DividerString` is the divider loop.
- `Decimal` holds decimal digits and zero padding, used by the id format.
- `TaskStore` models src/lib.rs:
  - `get_next_task_id`;
  - `iter().position`;
  - the in-memory steps of `add`, `start` and `finish`;
  - the parse fallback of `get_tasks`.

  Each state-changing method is proved against a function of the old
  collection (`Added`, `Started`, `Finished`). Lemmas state what those
  functions promise.
- `Listing` models `Display for Tasks`:
  - `Report` is the text it writes, specified through `Headings` and
    `Sections`.
  - `Render` builds that text step by step, the way the formatter does: it
    buckets finished tasks by day in a map, walks the keys in ascending
    order, then writes the in-progress and todo groups.
- `ListingProperties` proves what the report promises:
  - sections come in a fixed order;
  - no section is empty;
  - every task is printed exactly once, in collection order within its
    section;
  - "No tasks found!" is printed exactly when the collection is empty.
- `StringOrder` is the `String` ordering a `BTreeMap` iterates in, and the
  ascending key sequence it yields.
- `Seqs` holds `filter` and concatenation over sequences.

The outside world enters as parameters:
- The current time (`Utc::now()`) is a `now: Timestamp` argument.
- The day key `updated_at.format("%a (%y-%m-%d)")` is a function argument
  `dateKey: Timestamp -> string`.
- The outcome of TOML parsing is an `Option<seq<Task>>` passed to `GetTasks`.

Where an `unwrap` or an overflowing `+ 1` would panic, the operation returns
`ok == false` and leaves the collection as it was. The program then stops
without saving.

Two details of the output:
- A task line holds no status label and is not column-aligned. It is "#",
  the zero-filled id, ": ", the description and a newline (src/tasks.rs:28).
- When the collection is empty, "No tasks found!" is written after a blank
  line, as `"\nNo tasks found!\n"` (src/tasks.rs:70-72).

## Model

| member | source | states |
|---|---|---|
| `Tasks.TaskCollection.constructor` | src/tasks.rs:21-24 | a collection holds exactly the given task sequence |
| `Tasks.IdField` | src/tasks.rs:28 | `{:03}` output is all decimal digits and reads back as the id; at least 3 characters, exactly 3 below 1000, with no leading zero when longer |
| `Tasks.TaskLineFields` | src/tasks.rs:26-30 | a task line is "#", the `{:03}` id digits (reading back as the id), ": ", the description and a newline |
| `Tasks.TaskLineExample` | src/lib.rs:143-153 | task 33 "ring up john" prints as `"#033: ring up john\n"`, at any timestamp |
| `Tasks.Divider` | src/tasks.rs:78-86 | a divider of length n is n '=' characters |
| `Tasks.DividerString` | src/tasks.rs:78-86 | the push loop builds exactly `Divider(len)` |
| `Decimal.Digits` | src/tasks.rs:28 | the decimal form of n is a non-empty digit string with a leading zero only for 0 |
| `Decimal.ValueOfDigits` | src/tasks.rs:28 | the decimal form of n reads back as n |
| `Decimal.LeadingZeros` | src/tasks.rs:28 | zero-filling a digit string keeps its value |
| `Decimal.ShortDigits` | src/tasks.rs:28 | numbers below 1000 have at most 3 digits, so `{:03}` gives exactly 3 |
| `Seqs.Filter` | src/tasks.rs:34 | a filtered sequence is no longer than its input; every element kept satisfies the predicate, and every element that satisfies it is kept |
| `Seqs.FilterIsSubsequence` | src/tasks.rs:34 | filtering keeps the relative order of the tasks kept |
| `StringOrder.LessIrreflexive` | src/tasks.rs:36 | no key sorts before itself |
| `StringOrder.LessTransitive` | src/tasks.rs:36 | the key order is transitive |
| `StringOrder.LessTrichotomy` | src/tasks.rs:36 | any two keys are equal or one sorts before the other |
| `StringOrder.Least` | src/tasks.rs:46 | the least key of a non-empty key set is in the set and sorts before or equals every key |
| `StringOrder.SortedKeys` | src/tasks.rs:46 | the keys in iteration order: as many as the set has, each one from the set |
| `StringOrder.SortedKeysAscending` | src/tasks.rs:46 | map iteration yields keys in strictly ascending order |
| `StringOrder.SortedKeysComplete` | src/tasks.rs:46 | map iteration yields every key of the map |
| `StringOrder.SmallestKey` | src/tasks.rs:46 | a linear scan finds the least key of a non-empty key set |
| `Listing.DividerWidth` | src/tasks.rs:47-65 | each divider is as long as the title it underlines: `date.len() + 5` for "Done <date>", 11 and 4 |
| `Listing.DoneDays` | src/tasks.rs:38-44 | a day is a bucket key exactly when some finished task falls on that day |
| `Listing.PushToBucket` | src/tasks.rs:40-43 | `entry().or_insert().push()` adds the key, appends the task to that day's bucket, and leaves every other bucket unchanged |
| `Listing.BucketByDate` | src/tasks.rs:36-44 | the map's keys are the days of the finished tasks; each bucket holds that day's finished tasks in collection order |
| `Listing.Select` | src/tasks.rs:51-54 | collects the tasks of one status in collection order |
| `Listing.WriteLines` | src/tasks.rs:60 | writes one task line per task of the group, in order |
| `Listing.StatusGroupIsUnder` | src/tasks.rs:51-62 | the in-progress and todo filters select exactly the tasks under their headings |
| `Listing.WriteStatusGroup` | src/tasks.rs:51-68 | writes the header only when the group is non-empty, then the group's lines |
| `Listing.DoneHeader` | src/tasks.rs:47 | the literal day header equals the day section's header text |
| `Listing.WriteBucket` | src/tasks.rs:47-48 | writes one day's header, divider and task lines |
| `Listing.DoneTextIsText` | src/tasks.rs:46-49 | writing the day sections one after another gives the text of those sections |
| `Listing.WriteDoneBuckets` | src/tasks.rs:46-49 | writes one section per bucket key, in ascending key order, each with that day's finished tasks |
| `Listing.ReportParts` | src/tasks.rs:70-72 | the report is its sections followed by "No tasks found!" exactly when the three status counts add up to 0 |
| `Listing.Render` | src/tasks.rs:32-76 | the formatter writes exactly the report: day sections, then in-progress, then todo, then the empty-collection message |
| `ListingProperties.StatusPartition` | src/tasks.rs:34-62 | the three status groups split the collection: their multisets add up to the collection's |
| `ListingProperties.StatusCounts` | src/tasks.rs:70 | the three status counts add up to the number of tasks |
| `ListingProperties.OrderedHeadings` | src/tasks.rs:46-66 | day headings over ascending days, then "In Progress", then "Todo", are in report order |
| `ListingProperties.HeadingsAscending` | src/tasks.rs:46-66 | the headings strictly ascend: days in key order, then "In Progress", then "Todo" |
| `ListingProperties.EveryTaskHasAHeading` | src/tasks.rs:34-68 | every task's heading (its finish day or its status) appears in the report |
| `ListingProperties.HeadingHasTasks` | src/tasks.rs:38-66 | every printed heading has at least one task under it |
| `ListingProperties.SectionsNonEmpty` | src/tasks.rs:38-66 | no section is printed without tasks |
| `ListingProperties.SectionsKeepOrder` | src/tasks.rs:34-68 | every task in a section belongs under its heading, and a section lists its tasks in collection order |
| `ListingProperties.SectionsSnocTask` | src/tasks.rs:38-68 | one more task lands in the section of its heading and in no other |
| `ListingProperties.CoveringSectionsPartition` | src/tasks.rs:38-68 | sections under distinct headings that cover every task hold each task exactly once |
| `ListingProperties.SectionsPartition` | src/tasks.rs:32-76 | the report prints every task exactly once |
| `ListingProperties.NoTasksFoundIffEmpty` | src/tasks.rs:70-72 | "No tasks found!" is written exactly when the collection is empty, and the report has no sections exactly then |
| `ListingProperties.EmptyReport` | src/tasks.rs:70-72 | an empty collection renders as `"\nNo tasks found!\n"` alone |
| `ListingProperties.DayKeysSortByWeekdayName` | src/tasks.rs:39-46 | day buckets sort by weekday name first: Fri 2024-01-05 is listed before Thu 2024-01-04 |
| `TaskStore.MaxId` | src/lib.rs:103-110 | the highest id bounds every id and is attained by some task; it is 0 for an empty collection |
| `TaskStore.GetNextTaskId` | src/lib.rs:103-113 | the next id is one more than the highest, so above every id; 1 for an empty collection; none when the highest id is `u32::MAX` |
| `TaskStore.NextIdExample` | src/lib.rs:127-141 | a collection holding id 1 gets next id 2 |
| `TaskStore.FirstIndex` | src/lib.rs:29-33 | the first index whose task has the id |
| `TaskStore.FirstIndexIsFirst` | src/lib.rs:29-33 | an index holding the id, with no match before it, is the first index |
| `TaskStore.Position` | src/lib.rs:29-33 | `position` finds nothing exactly when no task has the id, and otherwise the first index with it |
| `TaskStore.RemoveAt` | src/lib.rs:35 | `Vec::remove` keeps the elements before the index and shifts those after it down by one |
| `TaskStore.GetTasks` | src/lib.rs:87-92 | a parsed collection is used as is; a parse failure yields an empty collection |
| `TaskStore.Add` | src/lib.rs:9-19 | the collection becomes `Added(old)`, and panics (no change) exactly when the highest id is `u32::MAX` |
| `TaskStore.Start` | src/lib.rs:26-39 | the collection becomes `Started(old, id)`, and panics (no change) exactly when no task has the id |
| `TaskStore.Finish` | src/lib.rs:46-60 | the collection becomes `Finished(old, id, now)`, and panics (no change) exactly when no task has the id |
| `TaskStore.AddedAppendsFreshTodo` | src/lib.rs:12-19 | `add` keeps every task and appends one "todo" task with the description, the time and an id above every existing id |
| `TaskStore.AddKeepsIdsUnique` | src/lib.rs:13-19 | distinct ids stay distinct after `add` |
| `TaskStore.MovedToEndOrder` | src/lib.rs:35-39 | remove-then-push keeps the length and the other tasks' order, and puts the updated task last |
| `TaskStore.MovedToEndKeepsIds` | src/lib.rs:35-39 | remove-then-push under the same id keeps the multiset of ids |
| `TaskStore.MovedToEndKeepsIdsUnique` | src/lib.rs:35-39 | remove-then-push under the same id keeps ids distinct |
| `TaskStore.StartedMovesTaskToEnd` | src/lib.rs:29-39 | `start` moves the first task with the id to the end as "in progress", with its id, description and timestamp unchanged, the rest in order, and the ids as before |
| `TaskStore.FinishedMovesTaskToEnd` | src/lib.rs:49-60 | `finish` moves the first task with the id to the end as "done" at `now`, with its id and description unchanged, the rest in order, and the ids as before |
| `TaskStore.StartedSettlesTheTask` | src/lib.rs:29-39 | with distinct ids, after `start` the only task with the id is the last one and is "in progress", and ids stay distinct |
| `TaskStore.FinishedSettlesTheTask` | src/lib.rs:49-60 | with distinct ids, after `finish` the only task with the id is the last one and is "done" at `now`, and ids stay distinct |

## Left out

- File I/O is not modelled; the model works on the collection once loaded. That covers `get_tasks` opening, creating and reading the file (and the panics of its `unwrap`s), `save_tasks`, and `get_tasks_file_path` with `dirs::config_dir` (src/lib.rs:75-86, 95-101, 115-121).
- TOML serialisation and parsing belong to the `toml` and `serde` libraries. The parse outcome is an `Option` input to `GetTasks`, so no save-then-load round trip is stated.
- `Utc::now()` is not modelled; the time is a `now` parameter.
- chrono's `format("%a (%y-%m-%d)")` is the uninterpreted `dateKey` parameter. `DayKeysSortByWeekdayName` uses literal keys in that format.
- Listing.DividerWidth uses the character count of the day key where the source uses `date.len()`, its UTF-8 byte length. The two agree because chrono writes ASCII here.
- `list` prints the report with `println!`, and `main.rs` parses the command line. Neither is modelled: they are standard output and argument dispatch. `Render` yields the text that `println!` would print, without its trailing newline.
- `fmt::Error` from the formatter is not modelled; writing to the formatter is appending to a string. The `?` and `unwrap` on write results therefore never fire.
- Lazy iterator filters are modelled as collected sequences (`Select`); `.clone().count()` is the length of that sequence.
- TaskStore.GetNextTaskId models the overflow check of a debug build, where `highest_id + 1` panics at `u32::MAX`. It does not model a release build, where the sum wraps to 0.
- `Add`, `Start` and `Finish` report a panic as `ok == false` with the collection unchanged. The real process aborts at that point and nothing is saved.
