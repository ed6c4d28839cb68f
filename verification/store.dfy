/**
 * The application state (`AppState`): the task list and the time-entry log,
 * which the mutators update in place, the categories and settings, and the
 * timer record the pomodoro manager drives. The queries are pure projections
 * over the lists.
 */
module Store {
  import opened Seqs
  import opened Domain
  import Metrics

  /** The transient timer record `app.timer`; `interval` is the handle of its periodic tick. */
  class Timer {
    var isRunning: bool
    var isPaused: bool
    var timeLeft: int
    var mode: Mode
    var interval: Option<nat>

    /** A fresh application starts idle in the work phase with 1500 seconds, whatever the settings say. */
    constructor ()
      ensures !isRunning && !isPaused && timeLeft == 1500 && mode == Work && interval == None
    {
      isRunning := false;
      isPaused := false;
      timeLeft := 25 * 60;
      mode := Work;
      interval := None;
    }
  }

  /** What `getTodayStats` returns; `focusTenths` is `focusTime` times ten. */
  datatype TodayStats = TodayStats(completedTasks: nat, totalTasks: nat, focusTenths: int, productivity: int)

  class AppState {
    var tasks: seq<Task>
    var timeEntries: seq<TimeEntry>
    var categories: seq<Category>
    var settings: Settings
    const timer: Timer

    /**
     * Loading: each saved record is used when present (even an empty list),
     * otherwise its default; the timer always starts fresh.
     */
    constructor (savedTasks: Option<seq<Task>>, savedEntries: Option<seq<TimeEntry>>,
                 savedCategories: Option<seq<Category>>, savedSettings: Option<Settings>)
      ensures tasks == GetOr(savedTasks, []) && timeEntries == GetOr(savedEntries, [])
      ensures categories == GetOr(savedCategories, DefaultCategories)
      ensures settings == GetOr(savedSettings, DefaultSettings)
      ensures fresh(timer)
      ensures !timer.isRunning && !timer.isPaused && timer.timeLeft == 1500 && timer.mode == Work
      ensures timer.interval == None
    {
      tasks := GetOr(savedTasks, []);
      timeEntries := GetOr(savedEntries, []);
      categories := GetOr(savedCategories, DefaultCategories);
      settings := GetOr(savedSettings, DefaultSettings);
      timer := new Timer();
    }

    /** `addTask`: appends exactly one new record and returns it; nothing else changes. */
    method AddTask(draft: TaskDraft, now: nat) returns (t: Task)
      modifies this
      ensures t == NewTask(draft, now)
      ensures tasks == old(tasks) + [t]
      ensures timeEntries == old(timeEntries) && categories == old(categories) && settings == old(settings)
    {
      t := NewTask(draft, now);
      tasks := tasks + [t];
    }

    /**
     * `updateTask`: for a present id, the first task with it is replaced by its
     * merge with the patch and returned; for an absent id, `null` and no change.
     */
    method UpdateTask(id: string, updates: TaskPatch, now: int) returns (r: Option<Task>)
      modifies this
      ensures var i := FindIndex(old(tasks), id);
        if i == -1 then r == None && tasks == old(tasks)
        else r == Some(Merge(old(tasks)[i], updates, now)) && tasks == old(tasks)[i := r.value]
      ensures tasks == UpdateFirst(old(tasks), id, updates, now)
      ensures timeEntries == old(timeEntries) && categories == old(categories) && settings == old(settings)
    {
      var index := FindIndex(tasks, id);
      if index != -1 {
        tasks := tasks[index := Merge(tasks[index], updates, now)];
        r := Some(tasks[index]);
      } else {
        r := None;
      }
    }

    /** `deleteTask`: the list becomes the tasks whose id differs, in their original order. */
    method DeleteTask(id: string)
      modifies this
      ensures tasks == Filter(old(tasks), NotId(id))
      ensures forall t :: t in tasks <==> t in old(tasks) && t.id != id
      ensures timeEntries == old(timeEntries) && categories == old(categories) && settings == old(settings)
    {
      tasks := Filter(tasks, NotId(id));
    }

    /** `addTimeEntry`: appends exactly one new record to the log and returns it. */
    method AddTimeEntry(draft: EntryDraft, now: nat) returns (e: TimeEntry)
      modifies this
      ensures e == NewEntry(draft, now)
      ensures timeEntries == old(timeEntries) + [e]
      ensures tasks == old(tasks) && categories == old(categories) && settings == old(settings)
    {
      e := NewEntry(draft, now);
      timeEntries := timeEntries + [e];
    }

    /** `getTodayTasks`: the tasks due on `today`, in list order. */
    function TodayTasks(today: int): (r: seq<Task>)
      reads this
      ensures forall t :: t in r <==> t in tasks && t.dueDate == Some(today)
      ensures forall t :: multiset(r)[t] == if t.dueDate == Some(today) then multiset(tasks)[t] else 0
    {
      FilterMultiset(tasks, DueOn(today));
      Filter(tasks, DueOn(today))
    }

    /** `getTasksByStatus`. */
    function TasksByStatus(status: Status): (r: seq<Task>)
      reads this
      ensures forall t :: t in r <==> t in tasks && t.status == status
      ensures forall t :: multiset(r)[t] == if t.status == status then multiset(tasks)[t] else 0
    {
      FilterMultiset(tasks, HasStatus(status));
      Filter(tasks, HasStatus(status))
    }

    /** `getTasksByCategory`. */
    function TasksByCategory(categoryId: string): (r: seq<Task>)
      reads this
      ensures forall t :: t in r <==> t in tasks && t.categoryId == categoryId
      ensures forall t :: multiset(r)[t] == if t.categoryId == categoryId then multiset(tasks)[t] else 0
    {
      FilterMultiset(tasks, InCategory(categoryId));
      Filter(tasks, InCategory(categoryId))
    }

    /** `getTimeEntriesByDate`: the entries that started on the given day. */
    function TimeEntriesByDate(day: int): (r: seq<TimeEntry>)
      reads this
      ensures forall e :: e in r <==> e in timeEntries && DayOf(e.startTime) == day
      ensures forall e :: multiset(r)[e] == if DayOf(e.startTime) == day then multiset(timeEntries)[e] else 0
    {
      FilterMultiset(timeEntries, StartsOn(day));
      Filter(timeEntries, StartsOn(day))
    }

    /**
     * `getTodayStats`: today's due tasks, how many are completed, the completion
     * percentage, and the focus time of the entries started today in tenths of a
     * minute (`Math.round(seconds / 60 * 10)`).
     */
    function GetTodayStats(today: int): (s: TodayStats)
      reads this
      ensures s.totalTasks == |TodayTasks(today)|
      ensures s.completedTasks == Count(tasks, CompletedDueOn(today))
      ensures s.completedTasks <= s.totalTasks
      ensures 0 <= s.productivity <= 100
      ensures s.totalTasks == 0 ==> s.productivity == 0
      ensures s.totalTasks > 0 ==>
        2 * s.totalTasks * s.productivity - s.totalTasks <= 200 * s.completedTasks < 2 * s.totalTasks * s.productivity + s.totalTasks
      ensures 60 * s.focusTenths - 30 <= 10 * TotalDuration(TimeEntriesByDate(today)) < 60 * s.focusTenths + 30
    {
      var todayTasks := TodayTasks(today);
      var completed := Filter(todayTasks, HasStatus(Completed));
      var focus := TotalDuration(TimeEntriesByDate(today));
      FilterNested(tasks, today);
      Metrics.ProductivityBounds(|completed|, |todayTasks|);
      var focusTenths := Metrics.RoundDiv(focus, 6);
      assert 2 * 6 * focusTenths - 6 <= 2 * focus < 2 * 6 * focusTenths + 6;
      TodayStats(|completed|, |todayTasks|, focusTenths, Metrics.Productivity(|completed|, |todayTasks|))
    }
  }

  /** The completed tasks among those due on a day are the completed tasks due that day. */
  lemma {:induction false} FilterNested(tasks: seq<Task>, day: int)
    ensures Filter(Filter(tasks, DueOn(day)), HasStatus(Completed)) == Filter(tasks, CompletedDueOn(day))
    ensures |Filter(tasks, CompletedDueOn(day))| <= |Filter(tasks, DueOn(day))|
    decreases |tasks|
  {
    if tasks != [] {
      var init := tasks[..|tasks| - 1];
      var last := tasks[|tasks| - 1];
      assert tasks == init + [last];
      FilterNested(init, day);
      FilterSnoc(init, last, DueOn(day));
      FilterSnoc(Filter(init, DueOn(day)), last, HasStatus(Completed));
      FilterSnoc(init, last, CompletedDueOn(day));
    }
  }

  /**
   * Deleting removes every task with the id and keeps the rest in order; an
   * absent id leaves the list as it is, so deleting twice equals deleting once.
   */
  lemma DeleteSpec(tasks: seq<Task>, id: string)
    ensures forall t :: t in Filter(tasks, NotId(id)) ==> t.id != id
    ensures (forall t :: t in tasks ==> t.id != id) ==> Filter(tasks, NotId(id)) == tasks
    ensures Filter(Filter(tasks, NotId(id)), NotId(id)) == Filter(tasks, NotId(id))
  {
    if forall t :: t in tasks ==> t.id != id {
      FilterAll(tasks, NotId(id));
    }
    FilterIdempotent(tasks, NotId(id));
  }

  /** Deleting distributes over a split of the list, so the survivors keep their relative order. */
  lemma DeleteKeepsOrder(a: seq<Task>, b: seq<Task>, id: string)
    ensures Filter(a + b, NotId(id)) == Filter(a, NotId(id)) + Filter(b, NotId(id))
  {
    FilterConcat(a, b, NotId(id));
  }
}
