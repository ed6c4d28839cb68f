/**
 * The records of the time tracker: tasks, time entries, categories and settings,
 * with the rules that build and merge them.
 *
 * Time is abstracted: a timestamp is a number of milliseconds on the local wall
 * clock (what `Date.now()` gives, shifted to local time), and a calendar day is
 * the whole number of days in it, so two timestamps have the same
 * `toDateString()` exactly when their `DayOf` agree. A due date is a day number.
 */
module Domain {
  import opened Seqs
  import Text

  datatype Option<+T> = None | Some(value: T)

  const MsPerDay: nat := 86_400_000

  /** The local calendar day of a timestamp: `new Date(t).toDateString()`. */
  function DayOf(t: int): (d: int)
    ensures d * MsPerDay <= t < (d + 1) * MsPerDay
  {
    t / MsPerDay
  }

  datatype Status = Todo | InProgress | Completed

  /** The three phases of the pomodoro timer (`'work'`, `'break'`, `'longBreak'`). */
  datatype Mode = Work | Break | LongBreak

  /**
   * A task as the store holds it. `priority` is kept as the raw string the form
   * or the saved data supplies, since the lookups fall back for unknown values.
   */
  datatype Task = Task(
    id: string,
    title: string,
    description: string,
    priority: string,
    status: Status,
    dueDate: Option<int>,
    categoryId: string,
    createdAt: int,
    updatedAt: int)

  /** The fields a caller hands to `addTask`; an `id` among them wins over the generated one. */
  datatype TaskDraft = TaskDraft(
    id: Option<string>,
    title: string,
    description: string,
    priority: string,
    status: Status,
    dueDate: Option<int>,
    categoryId: string)

  /** The fields a caller hands to `updateTask`: `Some` for each field present in the object. */
  datatype TaskPatch = TaskPatch(
    id: Option<string>,
    title: Option<string>,
    description: Option<string>,
    priority: Option<string>,
    status: Option<Status>,
    dueDate: Option<Option<int>>,
    categoryId: Option<string>,
    createdAt: Option<int>)

  /** A recorded timer phase; `entryType` is the source's `type` field. */
  datatype TimeEntry = TimeEntry(
    id: string,
    entryType: string,
    mode: Mode,
    duration: int,
    startTime: int,
    endTime: int,
    categoryId: Option<string>,
    createdAt: int)

  datatype EntryDraft = EntryDraft(
    id: Option<string>,
    entryType: string,
    mode: Mode,
    duration: int,
    startTime: int,
    endTime: int,
    categoryId: Option<string>)

  datatype Category = Category(id: string, name: string, color: string)

  /** Durations are whole minutes. */
  datatype Settings = Settings(theme: string, pomodoroWork: nat, pomodoroBreak: nat, pomodoroLongBreak: nat)

  /** The categories used when none were saved. */
  const DefaultCategories: seq<Category> := [
    Category("work", "工作", "#6366f1"),
    Category("study", "学习", "#8b5cf6"),
    Category("personal", "个人", "#10b981"),
    Category("health", "健康", "#f59e0b")
  ]

  /** The settings used when none were saved. */
  const DefaultSettings: Settings := Settings("light", 25, 5, 15)

  function GetOr<T>(o: Option<T>, default: T): (r: T)
    ensures o.Some? ==> r == o.value
    ensures o.None? ==> r == default
  {
    match o
    case Some(v) => v
    case None => default
  }

  /** The generated identifier: `Date.now().toString()`. */
  function GeneratedId(now: nat): (id: string)
    ensures id != "" && Text.AllDigits(id)
  {
    Text.NatToString(now)
  }

  /**
   * The record `addTask` stores: generated id, then the caller's fields (so a
   * caller's id overrides it), then both timestamps set to now.
   */
  function NewTask(d: TaskDraft, now: nat): (t: Task)
    ensures t.id == GetOr(d.id, GeneratedId(now))
    ensures t.createdAt == now && t.updatedAt == now
    ensures t.title == d.title && t.description == d.description && t.priority == d.priority
    ensures t.status == d.status && t.dueDate == d.dueDate && t.categoryId == d.categoryId
  {
    Task(GetOr(d.id, GeneratedId(now)), d.title, d.description, d.priority, d.status,
         d.dueDate, d.categoryId, now, now)
  }

  /** The record `addTimeEntry` stores: generated id, the caller's fields, then `createdAt`. */
  function NewEntry(d: EntryDraft, now: nat): (e: TimeEntry)
    ensures e.id == GetOr(d.id, GeneratedId(now)) && e.createdAt == now
    ensures e.entryType == d.entryType && e.mode == d.mode && e.duration == d.duration
    ensures e.startTime == d.startTime && e.endTime == d.endTime && e.categoryId == d.categoryId
  {
    TimeEntry(GetOr(d.id, GeneratedId(now)), d.entryType, d.mode, d.duration, d.startTime,
              d.endTime, d.categoryId, now)
  }

  /** `{ ...t, ...p, updatedAt: now }`: every field present in the patch wins, then the update time. */
  function Merge(t: Task, p: TaskPatch, now: int): (r: Task)
    ensures r.updatedAt == now
    ensures p == EmptyPatch ==> r == t.(updatedAt := now)
  {
    Task(GetOr(p.id, t.id), GetOr(p.title, t.title), GetOr(p.description, t.description),
         GetOr(p.priority, t.priority), GetOr(p.status, t.status), GetOr(p.dueDate, t.dueDate),
         GetOr(p.categoryId, t.categoryId), GetOr(p.createdAt, t.createdAt), now)
  }

  const EmptyPatch: TaskPatch := TaskPatch(None, None, None, None, None, None, None, None)

  /** A patch that sets the status only, as `toggleTaskStatus` sends. */
  function StatusPatch(s: Status): TaskPatch
  {
    EmptyPatch.(status := Some(s))
  }

  /**
   * Merging keeps every field the patch leaves out, takes every field it supplies,
   * and always refreshes `updatedAt`.
   */
  lemma MergeFields(t: Task, p: TaskPatch, now: int)
    ensures var r := Merge(t, p, now);
      && r.updatedAt == now
      && (p.id.None? ==> r.id == t.id) && (p.id.Some? ==> r.id == p.id.value)
      && (p.title.None? ==> r.title == t.title) && (p.title.Some? ==> r.title == p.title.value)
      && (p.description.None? ==> r.description == t.description)
      && (p.description.Some? ==> r.description == p.description.value)
      && (p.priority.None? ==> r.priority == t.priority) && (p.priority.Some? ==> r.priority == p.priority.value)
      && (p.status.None? ==> r.status == t.status) && (p.status.Some? ==> r.status == p.status.value)
      && (p.dueDate.None? ==> r.dueDate == t.dueDate) && (p.dueDate.Some? ==> r.dueDate == p.dueDate.value)
      && (p.categoryId.None? ==> r.categoryId == t.categoryId)
      && (p.categoryId.Some? ==> r.categoryId == p.categoryId.value)
      && (p.createdAt.None? ==> r.createdAt == t.createdAt) && (p.createdAt.Some? ==> r.createdAt == p.createdAt.value)
  {
  }

  /** Merging the same patch twice is merging it once (with the later update time). */
  lemma MergeTwice(t: Task, p: TaskPatch, now1: int, now2: int)
    ensures Merge(Merge(t, p, now1), p, now2) == Merge(t, p, now2)
  {
  }

  /**
   * `updateTask(t.id, {status: s})`: the status becomes `s`, the identifier and
   * creation time stay, and the update time does not go back as long as the clock does not.
   */
  lemma StatusUpdate(t: Task, s: Status, now: int)
    requires now >= t.updatedAt
    ensures var r := Merge(t, StatusPatch(s), now);
      r.status == s && r.id == t.id && r.createdAt == t.createdAt && r.updatedAt >= t.updatedAt
      && r == t.(status := s, updatedAt := now)
  {
  }

  /** `tasks.findIndex(task => task.id === id)`: the first task with that id, or -1. */
  function FindIndex(tasks: seq<Task>, id: string): (i: int)
    ensures -1 <= i < |tasks|
    ensures i == -1 <==> forall k :: 0 <= k < |tasks| ==> tasks[k].id != id
    ensures i >= 0 ==> tasks[i].id == id && forall k :: 0 <= k < i ==> tasks[k].id != id
    decreases |tasks|
  {
    if tasks == [] then -1
    else if tasks[0].id == id then 0
    else
      var k := FindIndex(tasks[1..], id);
      if k == -1 then -1 else k + 1
  }

  /** The task list after `updateTask(id, p)` at time `now`. */
  function UpdateFirst(tasks: seq<Task>, id: string, p: TaskPatch, now: int): (r: seq<Task>)
    ensures |r| == |tasks|
    ensures forall t :: t in r && t !in tasks ==> t.updatedAt == now
  {
    var i := FindIndex(tasks, id);
    if i == -1 then tasks else tasks[i := Merge(tasks[i], p, now)]
  }

  /**
   * `updateTask` replaces only the first task with the identifier by its merge,
   * keeping the length and every other task; an absent identifier changes nothing.
   */
  lemma UpdateFirstSpec(tasks: seq<Task>, id: string, p: TaskPatch, now: int)
    ensures var r := UpdateFirst(tasks, id, p, now);
      && |r| == |tasks|
      && ((forall t :: t in tasks ==> t.id != id) ==> r == tasks)
      && forall k :: 0 <= k < |tasks| ==>
           r[k] == if k == FindIndex(tasks, id) then Merge(tasks[k], p, now) else tasks[k]
  {
  }

  // The predicates the queries filter with, as values to hand to Seqs.Filter.

  function NotId(id: string): Task -> bool { (t: Task) => t.id != id }

  function DueOn(day: int): Task -> bool { (t: Task) => t.dueDate == Some(day) }

  function HasStatus(s: Status): Task -> bool { (t: Task) => t.status == s }

  function InCategory(c: string): Task -> bool { (t: Task) => t.categoryId == c }

  function CompletedDueOn(day: int): Task -> bool { (t: Task) => t.dueDate == Some(day) && t.status == Completed }

  function StartsOn(day: int): TimeEntry -> bool { (e: TimeEntry) => DayOf(e.startTime) == day }

  /** The entries that count towards the long-break cadence: `type === 'pomodoro' && mode === 'work'`. */
  predicate IsWorkPomodoro(e: TimeEntry) { e.entryType == "pomodoro" && e.mode == Work }

  /** `reduce((total, entry) => total + (entry.duration || 0), 0)`. */
  function TotalDuration(entries: seq<TimeEntry>): (r: int)
    ensures |entries| == 1 ==> r == entries[0].duration
    decreases |entries|
  {
    if entries == [] then 0
    else TotalDuration(entries[..|entries| - 1]) + entries[|entries| - 1].duration
  }

  /** The total is additive over concatenation. */
  lemma {:induction false} TotalDurationConcat(a: seq<TimeEntry>, b: seq<TimeEntry>)
    ensures TotalDuration(a + b) == TotalDuration(a) + TotalDuration(b)
    decreases |b|
  {
    if b != [] {
      assert (a + b)[..|a + b| - 1] == a + b[..|b| - 1];
      TotalDurationConcat(a, b[..|b| - 1]);
    } else {
      assert a + b == a;
    }
  }

  /** With non-negative durations the total is non-negative and bounds every duration. */
  lemma {:induction false} TotalDurationBounds(entries: seq<TimeEntry>)
    requires forall e :: e in entries ==> e.duration >= 0
    ensures TotalDuration(entries) >= 0
    ensures forall e :: e in entries ==> e.duration <= TotalDuration(entries)
    decreases |entries|
  {
    if entries != [] {
      var init := entries[..|entries| - 1];
      assert forall e :: e in init ==> e in entries;
      TotalDurationBounds(init);
      assert forall e :: e in entries ==> e in init || e == entries[|entries| - 1];
    }
  }
}
