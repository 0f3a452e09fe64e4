/** The task types of the tracker and the formatting of one task line
    (src/tasks.rs). */
module Tasks {
  import opened Decimal

  /** Rust's `u32`, the type of task ids. */
  newtype u32 = x: int | 0 <= x < 0x1_0000_0000

  const MaxU32: u32 := 0xFFFF_FFFF

  /** A point in time (`DateTime<Utc>`), kept abstract. */
  type Timestamp = int

  datatype Status = Todo | InProgress | Done

  datatype Task = Task(id: u32, description: string, status: Status, updatedAt: Timestamp)

  /** The `Tasks` struct: the whole collection, loaded from and saved to the
      store as one value. The task-store operations update its field in place. */
  class TaskCollection {
    var tasks: seq<Task>

    constructor (tasks: seq<Task>)
      ensures this.tasks == tasks
    {
      this.tasks := tasks;
    }
  }

  /** The id as `{:03}` prints it: zero-filled to three digits, longer ids
      in full, and always reading back as the id. */
  function IdField(id: u32): (f: string)
    ensures IsDigits(f) && Value(f) == id as int
    ensures |f| >= 3
    ensures id < 1000 ==> |f| == 3
    ensures |f| > 3 ==> f[0] != '0'
  {
    var d := Digits(id as int);
    assert IsDigits(PadLeft(d, 3)) && Value(PadLeft(d, 3)) == id as int by {
      ValueOfDigits(id as int);
      if |d| < 3 {
        LeadingZeros(3 - |d|, d);
      }
    }
    assert id < 1000 ==> |d| <= 3 by {
      if id < 1000 {
        ShortDigits(id as int);
      }
    }
    PadLeft(d, 3)
  }

  /** `Display for Task`: "#", the id field, ": ", the description, a newline. */
  function TaskLine(t: Task): string {
    "#" + IdField(t.id) + ": " + t.description + "\n"
  }

  /** Read from the back, a task line splits into "#", the id digits, ": ",
      the description and a newline, and the digits read back as the id. */
  lemma TaskLineFields(t: Task)
    ensures var l := TaskLine(t);
      && |l| >= |t.description| + 7
      && l[0] == '#' && l[|l| - 1] == '\n'
      && var k := |l| - |t.description| - 3;
      && IsDigits(l[1..k]) && Value(l[1..k]) == t.id as int
      && l[k..k + 2] == ": "
      && l[k + 2..|l| - 1] == t.description
  {
    var f := IdField(t.id);
    var l := TaskLine(t);
    assert l[1..|f| + 1] == f;
    assert l[|f| + 1..|f| + 3] == ": ";
    assert l[|f| + 3..|l| - 1] == t.description;
  }

  /** The line the test for `Display for Task` expects, at any timestamp. */
  lemma TaskLineExample(at: Timestamp)
    ensures TaskLine(Task(33, "ring up john", Todo, at)) == "#033: ring up john\n"
  {
    assert Digits(3) == ['3'];
    assert Digits(33) == ['3', '3'];
    assert Zeros(1) == ['0'];
    assert IdField(33) == ['0', '3', '3'];
  }

  /** A row of `n` '=' characters. */
  function Divider(n: nat): (s: string)
    ensures |s| == n
    ensures forall i | 0 <= i < n :: s[i] == '='
  {
    seq(n, _ => '=')
  }

  /** `divider_string`: pushes "=" onto an empty string `len` times. */
  method DividerString(len: nat) returns (s: string)
    ensures s == Divider(len)
  {
    s := "";
    for i := 0 to len
      invariant |s| == i
      invariant forall j | 0 <= j < i :: s[j] == '='
    {
      s := s + "=";
    }
  }
}
