/** The task-store operations of src/lib.rs, between loading the collection
    and saving it: choosing the next id, adding a task, and moving a task to
    "in progress" or "done". */
module TaskStore {
  import opened Tasks

  datatype Option<T> = None | Some(value: T)

  // ---------------------------------------------------------------------
  // Ids

  /** The highest id in the collection, 0 when it is empty. */
  function MaxId(ts: seq<Task>): (m: u32)
    ensures forall i | 0 <= i < |ts| :: ts[i].id <= m
    ensures ts == [] ==> m == 0
    ensures ts != [] ==> exists i | 0 <= i < |ts| :: ts[i].id == m
  {
    if ts == [] then 0
    else
      var m' := MaxId(ts[..|ts| - 1]);
      if ts[|ts| - 1].id > m' then ts[|ts| - 1].id else m'
  }

  /** `get_next_task_id`: one more than the highest id. The addition is
      checked, as in a debug build, so the highest possible id leaves no
      next id (`None`, where the program panics). */
  method GetNextTaskId(ts: seq<Task>) returns (next: Option<u32>)
    ensures next.None? <==> MaxId(ts) == MaxU32
    ensures next.Some? ==> next.value as int == MaxId(ts) as int + 1
    ensures next.Some? ==> forall i | 0 <= i < |ts| :: ts[i].id < next.value
    ensures ts == [] ==> next == Some(1)
  {
    var highest: u32 := 0;
    for i := 0 to |ts|
      invariant highest == MaxId(ts[..i])
    {
      assert ts[..i + 1][..i] == ts[..i];
      if ts[i].id > highest {
        highest := ts[i].id;
      }
    }
    assert ts[..|ts|] == ts;
    if highest == MaxU32 {
      next := None;
    } else {
      next := Some(highest + 1);
    }
  }

  /** The collection the test for `get_next_task_id` builds: one task with
      id 1, so the next id is 2. */
  lemma NextIdExample(at: Timestamp)
    ensures MaxId([Task(1, "buy some milk", InProgress, at)]) as int + 1 == 2
  {
    assert [Task(1, "buy some milk", InProgress, at)][..0] == [];
  }

  /** No two tasks share an id. */
  predicate UniqueIds(ts: seq<Task>) {
    forall i, j | 0 <= i < j < |ts| :: ts[i].id != ts[j].id
  }

  function Ids(ts: seq<Task>): (ids: seq<u32>)
    ensures |ids| == |ts|
    ensures forall i | 0 <= i < |ts| :: ids[i] == ts[i].id
  {
    seq(|ts|, i requires 0 <= i < |ts| => ts[i].id)
  }

  // ---------------------------------------------------------------------
  // Finding a task

  predicate HasTask(ts: seq<Task>, id: u32) {
    exists i | 0 <= i < |ts| :: ts[i].id == id
  }

  /** The index of the first task with the id. */
  function FirstIndex(ts: seq<Task>, id: u32): (i: nat)
    requires HasTask(ts, id)
    ensures i < |ts| && ts[i].id == id
    ensures forall k | 0 <= k < i :: ts[k].id != id
  {
    if ts[0].id == id then 0
    else
      assert HasTask(ts[1..], id) by {
        var j :| 0 <= j < |ts| && ts[j].id == id;
        assert ts[1..][j - 1] == ts[j];
      }
      1 + FirstIndex(ts[1..], id)
  }

  /** `iter().position(|t| t.id == id)`: scans from the front and stops at
      the first match. */
  method Position(ts: seq<Task>, id: u32) returns (r: Option<nat>)
    ensures r.None? <==> !HasTask(ts, id)
    ensures r.Some? ==> HasTask(ts, id) && r.value == FirstIndex(ts, id)
  {
    var i := 0;
    while i < |ts|
      invariant 0 <= i <= |ts|
      invariant forall k | 0 <= k < i :: ts[k].id != id
    {
      if ts[i].id == id {
        r := Some(i);
        assert HasTask(ts, id);
        FirstIndexIsFirst(ts, id, i);
        return;
      }
      i := i + 1;
    }
    r := None;
  }

  /** An index holding the id with no match before it is the first index. */
  lemma FirstIndexIsFirst(ts: seq<Task>, id: u32, i: nat)
    requires i < |ts| && ts[i].id == id
    requires forall k | 0 <= k < i :: ts[k].id != id
    ensures HasTask(ts, id) && FirstIndex(ts, id) == i
  {
    var f := FirstIndex(ts, id);
    assert ts[f].id == id;
  }

  // ---------------------------------------------------------------------
  // The new collections

  /** `Vec::remove`: the sequence without its element at `i`. */
  function RemoveAt(ts: seq<Task>, i: nat): (r: seq<Task>)
    requires i < |ts|
    ensures |r| == |ts| - 1
    ensures forall j | 0 <= j < i :: r[j] == ts[j]
    ensures forall j | i <= j < |r| :: r[j] == ts[j + 1]
  {
    ts[..i] + ts[i + 1..]
  }

  /** The collection after `add`. */
  function Added(ts: seq<Task>, description: string, now: Timestamp): seq<Task>
    requires MaxId(ts) < MaxU32
  {
    ts + [Task(MaxId(ts) + 1, description, Todo, now)]
  }

  /** The task at `i` taken out and `t` pushed in its place at the end. */
  function MovedToEnd(ts: seq<Task>, i: nat, t: Task): seq<Task>
    requires i < |ts|
  {
    RemoveAt(ts, i) + [t]
  }

  /** The collection after `start`. */
  function Started(ts: seq<Task>, id: u32): seq<Task>
    requires HasTask(ts, id)
  {
    var i := FirstIndex(ts, id);
    MovedToEnd(ts, i, ts[i].(status := InProgress))
  }

  /** The collection after `finish`. */
  function Finished(ts: seq<Task>, id: u32, now: Timestamp): seq<Task>
    requires HasTask(ts, id)
  {
    var i := FirstIndex(ts, id);
    MovedToEnd(ts, i, ts[i].(status := Done, updatedAt := now))
  }

  // ---------------------------------------------------------------------
  // The operations on a loaded collection

  /** `get_tasks` after reading the store: the parsed collection, or an
      empty one when the text does not parse. */
  method GetTasks(parsed: Option<seq<Task>>) returns (c: TaskCollection)
    ensures fresh(c)
    ensures parsed.Some? ==> c.tasks == parsed.value
    ensures parsed.None? ==> c.tasks == []
  {
    match parsed
    case Some(ts) =>
      c := new TaskCollection(ts);
    case None =>
      c := new TaskCollection([]);
  }

  /** `add`: pushes a new "todo" task with the next id. `ok` is false where
      computing the next id overflows and the program panics. */
  method Add(c: TaskCollection, description: string, now: Timestamp) returns (ok: bool)
    modifies c
    ensures ok <==> MaxId(old(c.tasks)) < MaxU32
    ensures ok ==> c.tasks == Added(old(c.tasks), description, now)
    ensures !ok ==> c.tasks == old(c.tasks)
  {
    var id := GetNextTaskId(c.tasks);
    if id.None? {
      return false;
    }
    var task := Task(id.value, description, Todo, now);
    c.tasks := c.tasks + [task];
    ok := true;
  }

  /** `start`: moves the first task with the id to the end, "in progress".
      `ok` is false where no task has the id and `unwrap` panics. */
  method Start(c: TaskCollection, id: u32) returns (ok: bool)
    modifies c
    ensures ok <==> HasTask(old(c.tasks), id)
    ensures ok ==> c.tasks == Started(old(c.tasks), id)
    ensures !ok ==> c.tasks == old(c.tasks)
  {
    var i := Position(c.tasks, id);
    if i.None? {
      return false;
    }
    var task := c.tasks[i.value];
    c.tasks := c.tasks[..i.value] + c.tasks[i.value + 1..];
    task := task.(status := InProgress);
    c.tasks := c.tasks + [task];
    ok := true;
  }

  /** `finish`: moves the first task with the id to the end, "done" as of
      `now`. `ok` is false where no task has the id and `unwrap` panics. */
  method Finish(c: TaskCollection, id: u32, now: Timestamp) returns (ok: bool)
    modifies c
    ensures ok <==> HasTask(old(c.tasks), id)
    ensures ok ==> c.tasks == Finished(old(c.tasks), id, now)
    ensures !ok ==> c.tasks == old(c.tasks)
  {
    var i := Position(c.tasks, id);
    if i.None? {
      return false;
    }
    var task := c.tasks[i.value];
    c.tasks := c.tasks[..i.value] + c.tasks[i.value + 1..];
    task := task.(status := Done, updatedAt := now);
    c.tasks := c.tasks + [task];
    ok := true;
  }

  // ---------------------------------------------------------------------
  // What the operations promise

  /** `add` grows the collection by one task at the end and leaves the
      others alone; the new task is "todo" as of `now`, and its id is larger
      than every id already there. */
  lemma AddedAppendsFreshTodo(ts: seq<Task>, description: string, now: Timestamp)
    requires MaxId(ts) < MaxU32
    ensures var r := Added(ts, description, now);
      && |r| == |ts| + 1
      && r[..|ts|] == ts
      && r[|ts|].description == description && r[|ts|].status == Todo && r[|ts|].updatedAt == now
      && (forall i | 0 <= i < |ts| :: ts[i].id < r[|ts|].id)
  {
    var r := Added(ts, description, now);
    assert r[..|ts|] == ts;
  }

  /** Adding keeps the ids distinct. */
  lemma AddKeepsIdsUnique(ts: seq<Task>, description: string, now: Timestamp)
    requires MaxId(ts) < MaxU32
    requires UniqueIds(ts)
    ensures UniqueIds(Added(ts, description, now))
  {
    var r := Added(ts, description, now);
    forall i, j | 0 <= i < j < |r|
      ensures r[i].id != r[j].id
    {
      if j == |ts| {
        assert r[i] == ts[i];
      } else {
        assert r[i] == ts[i] && r[j] == ts[j];
      }
    }
  }

  /** Moving a task to the end keeps the others in their order: those before
      it stay where they were, those after it move up by one. */
  lemma MovedToEndOrder(ts: seq<Task>, i: nat, t: Task)
    requires i < |ts|
    ensures var r := MovedToEnd(ts, i, t);
      && |r| == |ts|
      && r[..|ts| - 1] == RemoveAt(ts, i)
      && r[|ts| - 1] == t
      && (forall j | 0 <= j < i :: r[j] == ts[j])
      && (forall j | i <= j < |ts| - 1 :: r[j] == ts[j + 1])
  {
    var r := MovedToEnd(ts, i, t);
    assert r[..|ts| - 1] == RemoveAt(ts, i);
  }

  /** Moving a task to the end under its own id keeps the multiset of ids. */
  lemma {:induction false} MovedToEndKeepsIds(ts: seq<Task>, i: nat, t: Task)
    requires i < |ts| && t.id == ts[i].id
    ensures multiset(Ids(MovedToEnd(ts, i, t))) == multiset(Ids(ts))
  {
    var ids := Ids(ts);
    assert Ids(MovedToEnd(ts, i, t)) == ids[..i] + ids[i + 1..] + [ids[i]];
    assert ids == ids[..i] + [ids[i]] + ids[i + 1..];
  }

  /** Moving a task to the end under its own id keeps the ids distinct. */
  lemma MovedToEndKeepsIdsUnique(ts: seq<Task>, i: nat, t: Task)
    requires i < |ts| && t.id == ts[i].id
    requires UniqueIds(ts)
    ensures UniqueIds(MovedToEnd(ts, i, t))
  {
    var r := MovedToEnd(ts, i, t);
    MovedToEndOrder(ts, i, t);
    forall j, k | 0 <= j < k < |r|
      ensures r[j].id != r[k].id
    {
      var j' := if j < i then j else j + 1;
      var k' := if k == |r| - 1 then i else if k < i then k else k + 1;
      assert r[j] == ts[j'];
      assert r[k].id == ts[k'].id;
      assert j' != k';
      if j' < k' {
        assert ts[j'].id != ts[k'].id;
      } else {
        assert ts[k'].id != ts[j'].id;
      }
    }
  }

  /** `start` moves the first task with the id to the end, now "in
      progress", with its id, description and timestamp unchanged, and keeps
      the order of the others and the multiset of ids. */
  lemma StartedMovesTaskToEnd(ts: seq<Task>, id: u32)
    requires HasTask(ts, id)
    ensures var i, r := FirstIndex(ts, id), Started(ts, id);
      && |r| == |ts|
      && r[..|ts| - 1] == RemoveAt(ts, i)
      && r[|ts| - 1].id == id
      && r[|ts| - 1].description == ts[i].description
      && r[|ts| - 1].updatedAt == ts[i].updatedAt
      && r[|ts| - 1].status == InProgress
      && multiset(Ids(r)) == multiset(Ids(ts))
  {
    var i := FirstIndex(ts, id);
    MovedToEndOrder(ts, i, ts[i].(status := InProgress));
    MovedToEndKeepsIds(ts, i, ts[i].(status := InProgress));
  }

  /** `finish` moves the first task with the id to the end, now "done" as
      of `now`, with its id and description unchanged, and keeps the order
      of the others and the multiset of ids. */
  lemma FinishedMovesTaskToEnd(ts: seq<Task>, id: u32, now: Timestamp)
    requires HasTask(ts, id)
    ensures var i, r := FirstIndex(ts, id), Finished(ts, id, now);
      && |r| == |ts|
      && r[..|ts| - 1] == RemoveAt(ts, i)
      && r[|ts| - 1].id == id
      && r[|ts| - 1].description == ts[i].description
      && r[|ts| - 1].updatedAt == now
      && r[|ts| - 1].status == Done
      && multiset(Ids(r)) == multiset(Ids(ts))
  {
    var i := FirstIndex(ts, id);
    MovedToEndOrder(ts, i, ts[i].(status := Done, updatedAt := now));
    MovedToEndKeepsIds(ts, i, ts[i].(status := Done, updatedAt := now));
  }

  /** With distinct ids, after `start` the task with the id is the last one
      and the only one, and it is "in progress"; ids stay distinct. */
  lemma StartedSettlesTheTask(ts: seq<Task>, id: u32)
    requires HasTask(ts, id) && UniqueIds(ts)
    ensures UniqueIds(Started(ts, id))
    ensures forall j | 0 <= j < |Started(ts, id)| && Started(ts, id)[j].id == id ::
      j == |ts| - 1 && Started(ts, id)[j].status == InProgress
  {
    var i := FirstIndex(ts, id);
    MovedToEndOrder(ts, i, ts[i].(status := InProgress));
    MovedToEndKeepsIdsUnique(ts, i, ts[i].(status := InProgress));
  }

  /** With distinct ids, after `finish` the task with the id is the last one
      and the only one, and it is "done" as of `now`; ids stay distinct. */
  lemma FinishedSettlesTheTask(ts: seq<Task>, id: u32, now: Timestamp)
    requires HasTask(ts, id) && UniqueIds(ts)
    ensures UniqueIds(Finished(ts, id, now))
    ensures forall j | 0 <= j < |Finished(ts, id, now)| && Finished(ts, id, now)[j].id == id ::
      j == |ts| - 1 && Finished(ts, id, now)[j].status == Done && Finished(ts, id, now)[j].updatedAt == now
  {
    var i := FirstIndex(ts, id);
    MovedToEndOrder(ts, i, ts[i].(status := Done, updatedAt := now));
    MovedToEndKeepsIdsUnique(ts, i, ts[i].(status := Done, updatedAt := now));
  }
}
