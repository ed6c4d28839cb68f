/**
 * The pomodoro timer (`PomodoroManager`). Its state is the timer record of the
 * application state; the browser's `setInterval`/`clearInterval` are modelled by
 * a table of live interval handles, and the periodic callback by explicit calls
 * to `Tick`.
 */
module Pomodoro {
  import opened Seqs
  import opened Domain
  import opened Store

  /** The browser's live periodic callbacks: `setInterval` adds a fresh handle, `clearInterval` removes one. */
  class IntervalTable {
    var live: set<nat>
    var next: nat

    ghost predicate Valid()
      reads this
    {
      forall h :: h in live ==> h < next
    }

    constructor ()
      ensures Valid() && live == {} && next == 0
    {
      live := {};
      next := 0;
    }

    method SetInterval() returns (h: nat)
      requires Valid()
      modifies this
      ensures Valid()
      ensures h == old(next) && h !in old(live)
      ensures live == old(live) + {h} && |live| == |old(live)| + 1
      ensures next == old(next) + 1
    {
      h := next;
      live := live + {h};
      next := next + 1;
    }

    /** Clearing a handle that is not live (or `null`) does nothing. */
    method ClearInterval(h: Option<nat>)
      requires Valid()
      modifies this
      ensures Valid()
      ensures live == if h.Some? then old(live) - {h.value} else old(live)
      ensures next == old(next)
    {
      if h.Some? {
        live := live - {h.value};
      }
    }
  }

  /** The configured length of a phase in seconds: sixty times its setting in minutes. */
  function ModeDuration(s: Settings, m: Mode): (r: nat)
    ensures r % 60 == 0
    ensures m == Work ==> r / 60 == s.pomodoroWork
    ensures m == Break ==> r / 60 == s.pomodoroBreak
    ensures m == LongBreak ==> r / 60 == s.pomodoroLongBreak
  {
    match m
    case Work => s.pomodoroWork * 60
    case Break => s.pomodoroBreak * 60
    case LongBreak => s.pomodoroLongBreak * 60
  }

  /** With the default settings the phases last 1500, 300 and 900 seconds. */
  lemma DefaultDurations()
    ensures ModeDuration(DefaultSettings, Work) == 1500
    ensures ModeDuration(DefaultSettings, Break) == 300
    ensures ModeDuration(DefaultSettings, LongBreak) == 900
  {
  }

  /**
   * The phase after completing `m`, given the number of completed work
   * pomodoros in the log (the one just recorded included).
   */
  function NextMode(m: Mode, workSessions: nat): (r: Mode)
    ensures m == Work ==> r != Work && (r == LongBreak <==> workSessions % 4 == 0)
    ensures m != Work ==> r == Work
  {
    if m == Work then (if workSessions % 4 == 0 then LongBreak else Break) else Work
  }

  /**
   * The entry `recordTimeEntry` hands to `addTimeEntry` when a phase ends at
   * `now`: the phase just finished and the seconds it ran.
   */
  function RecordDraft(s: Settings, m: Mode, timeLeft: int, now: int): (d: EntryDraft)
    ensures d.duration == ModeDuration(s, m) - timeLeft
    ensures d.mode == m && d.entryType == "pomodoro" && d.id == None && d.categoryId == None
    ensures d.endTime == now && d.endTime - d.startTime == 1000 * d.duration
  {
    var duration := ModeDuration(s, m) - timeLeft;
    EntryDraft(None, "pomodoro", m, duration, now - duration * 1000, now, None)
  }

  /** Appending one entry raises the work-session count by one exactly when it is a work pomodoro. */
  lemma WorkCountSnoc(entries: seq<TimeEntry>, e: TimeEntry)
    ensures Count(entries + [e], IsWorkPomodoro) == Count(entries, IsWorkPomodoro) + (if IsWorkPomodoro(e) then 1 else 0)
  {
    FilterSnoc(entries, e, IsWorkPomodoro);
  }

  class PomodoroManager {
    const app: AppState
    const clock: IntervalTable

    /**
     * The timer is never both running and paused, its remaining time is never
     * negative, and it is running exactly when its current handle is live.
     */
    ghost predicate Valid()
      reads this, app, app.timer, clock
    {
      && clock.Valid()
      && !(app.timer.isRunning && app.timer.isPaused)
      && app.timer.timeLeft >= 0
      && (app.timer.interval.Some? ==> app.timer.interval.value < clock.next)
      && (app.timer.isRunning <==> app.timer.interval.Some? && app.timer.interval.value in clock.live)
    }

    constructor (app: AppState)
      requires !app.timer.isRunning && !app.timer.isPaused && app.timer.timeLeft >= 0
      requires app.timer.interval == None
      ensures this.app == app && fresh(clock) && clock.live == {}
      ensures Valid()
    {
      this.app := app;
      clock := new IntervalTable();
    }

    /** `getModeDuration`: the configured length of the current phase. */
    function GetModeDuration(): (r: nat)
      reads this, app, app.timer
      ensures r == ModeDuration(app.settings, app.timer.mode)
    {
      ModeDuration(app.settings, app.timer.mode)
    }

    /**
     * `start`: from paused it resumes with the remaining time kept; otherwise it
     * resets to the full phase. Either way it then installs a new interval, so
     * starting from paused leaves the handle `resume` created live as well.
     */
    method Start()
      requires Valid()
      modifies app.timer, clock
      ensures Valid()
      ensures app.timer.isRunning && !app.timer.isPaused && app.timer.mode == old(app.timer.mode)
      ensures old(app.timer.isPaused) ==> app.timer.timeLeft == old(app.timer.timeLeft)
      ensures !old(app.timer.isPaused) ==> app.timer.timeLeft == ModeDuration(app.settings, app.timer.mode)
      ensures old(app.timer.isPaused) ==> |clock.live| == |old(clock.live)| + 2
      ensures !old(app.timer.isPaused) ==> |clock.live| == |old(clock.live)| + (if old(app.timer.isRunning) then 0 else 1)
      ensures clock.next == old(clock.next) + (if old(app.timer.isPaused) then 2 else 1)
      ensures old(app.timer.isPaused) ==>
        && clock.live == old(clock.live) + {old(clock.next), old(clock.next) + 1}
        && app.timer.interval == Some(old(clock.next) + 1)
      ensures !old(app.timer.isPaused) ==>
        && clock.live == (if old(app.timer.interval).Some? then old(clock.live) - {old(app.timer.interval).value}
                          else old(clock.live)) + {old(clock.next)}
        && app.timer.interval == Some(old(clock.next))
    {
      if app.timer.isPaused {
        Resume();
      } else {
        Reset();
        app.timer.isRunning := true;
        app.timer.isPaused := false;
      }
      var h := clock.SetInterval();
      app.timer.interval := Some(h);
    }

    /** `pause`: stops the countdown, keeps the remaining time, and marks the timer paused. */
    method Pause()
      requires Valid()
      modifies app.timer, clock
      ensures Valid()
      ensures !app.timer.isRunning && app.timer.isPaused
      ensures app.timer.timeLeft == old(app.timer.timeLeft) && app.timer.mode == old(app.timer.mode)
      ensures app.timer.interval == old(app.timer.interval) && clock.next == old(clock.next)
      ensures clock.live == if old(app.timer.interval).Some? then old(clock.live) - {old(app.timer.interval).value} else old(clock.live)
      ensures old(app.timer.isRunning) ==> old(app.timer.interval).value !in clock.live
      ensures old(app.timer.isRunning) ==> |clock.live| == |old(clock.live)| - 1
      ensures !old(app.timer.isRunning) ==> clock.live == old(clock.live)
    {
      app.timer.isRunning := false;
      app.timer.isPaused := true;
      clock.ClearInterval(app.timer.interval);
    }

    /** `resume`: runs again from the remaining time with a new interval. */
    method Resume()
      requires Valid()
      modifies app.timer, clock
      ensures Valid()
      ensures app.timer.isRunning && !app.timer.isPaused
      ensures app.timer.timeLeft == old(app.timer.timeLeft) && app.timer.mode == old(app.timer.mode)
      ensures app.timer.interval.Some? && app.timer.interval.value !in old(clock.live)
      ensures clock.live == old(clock.live) + {app.timer.interval.value}
      ensures app.timer.interval == Some(old(clock.next)) && clock.next == old(clock.next) + 1
    {
      app.timer.isRunning := true;
      app.timer.isPaused := false;
      var h := clock.SetInterval();
      app.timer.interval := Some(h);
    }

    /** `reset`: idle, with the full length of the current phase and its interval cleared. */
    method Reset()
      requires Valid()
      modifies app.timer, clock
      ensures Valid()
      ensures !app.timer.isRunning && !app.timer.isPaused
      ensures app.timer.mode == old(app.timer.mode)
      ensures app.timer.timeLeft == ModeDuration(app.settings, app.timer.mode)
      ensures app.timer.interval == old(app.timer.interval) && clock.next == old(clock.next)
      ensures clock.live == if old(app.timer.interval).Some? then old(clock.live) - {old(app.timer.interval).value} else old(clock.live)
    {
      app.timer.isRunning := false;
      app.timer.isPaused := false;
      clock.ClearInterval(app.timer.interval);
      app.timer.timeLeft := GetModeDuration();
    }

    /**
     * The state right after a phase `oldMode` with `oldTimeLeft` seconds left has
     * completed at `now`, given the log before it: one entry recording the phase
     * is appended, the phase advances (a work phase to a long break on every
     * fourth work session in the log, otherwise to a short break; any break back
     * to work), and the timer is idle with the new phase's full length.
     */
    ghost predicate CompletedFrom(oldMode: Mode, oldTimeLeft: int, oldEntries: seq<TimeEntry>, now: nat)
      reads this, app, app.timer, clock
    {
      var duration := ModeDuration(app.settings, oldMode) - oldTimeLeft;
      var workSessions := Count(app.timeEntries, IsWorkPomodoro);
      && |app.timeEntries| == |oldEntries| + 1
      && app.timeEntries[..|oldEntries|] == oldEntries
      && var e := app.timeEntries[|oldEntries|];
      && e == NewEntry(RecordDraft(app.settings, oldMode, oldTimeLeft, now), now)
      && e.mode == oldMode && e.duration == duration && e.endTime == now
      && workSessions == Count(oldEntries, IsWorkPomodoro) + (if oldMode == Work then 1 else 0)
      && (oldMode == Work ==> app.timer.mode != Work && (app.timer.mode == LongBreak <==> workSessions % 4 == 0))
      && (oldMode != Work ==> app.timer.mode == Work)
      && !app.timer.isRunning && !app.timer.isPaused
      && app.timer.timeLeft == ModeDuration(app.settings, app.timer.mode)
    }

    /**
     * `tick`: counts one second down while time is left; on the tick that finds
     * no time left, completes the phase.
     */
    method Tick(now: nat)
      requires Valid()
      modifies app, app.timer, clock
      ensures Valid()
      ensures app.tasks == old(app.tasks) && app.settings == old(app.settings) && app.categories == old(app.categories)
      ensures old(app.timer.timeLeft) > 0 ==>
        && app.timer.timeLeft == old(app.timer.timeLeft) - 1
        && app.timer.mode == old(app.timer.mode)
        && app.timer.isRunning == old(app.timer.isRunning) && app.timer.isPaused == old(app.timer.isPaused)
        && app.timeEntries == old(app.timeEntries) && clock.live == old(clock.live)
        && app.timer.interval == old(app.timer.interval) && clock.next == old(clock.next)
      ensures old(app.timer.timeLeft) <= 0 ==>
        && CompletedFrom(old(app.timer.mode), old(app.timer.timeLeft), old(app.timeEntries), now)
        && app.timer.interval == old(app.timer.interval) && clock.next == old(clock.next)
        && clock.live == if old(app.timer.interval).Some? then old(clock.live) - {old(app.timer.interval).value} else old(clock.live)
    {
      if app.timer.timeLeft > 0 {
        app.timer.timeLeft := app.timer.timeLeft - 1;
      } else {
        Complete(now);
      }
    }

    /** `complete`: stop, record the finished phase, and switch to the next one. */
    method Complete(now: nat)
      requires Valid()
      modifies app, app.timer, clock
      ensures Valid()
      ensures app.tasks == old(app.tasks) && app.settings == old(app.settings) && app.categories == old(app.categories)
      ensures CompletedFrom(old(app.timer.mode), old(app.timer.timeLeft), old(app.timeEntries), now)
      ensures app.timer.interval == old(app.timer.interval) && clock.next == old(clock.next)
      ensures clock.live == if old(app.timer.interval).Some? then old(clock.live) - {old(app.timer.interval).value} else old(clock.live)
    {
      clock.ClearInterval(app.timer.interval);
      app.timer.isRunning := false;
      app.timer.isPaused := false;
      var e := RecordTimeEntry(now);
      SwitchMode();
    }

    /** `recordTimeEntry`: appends the entry for the current phase, ending now. */
    method RecordTimeEntry(now: nat) returns (e: TimeEntry)
      modifies app
      ensures e == NewEntry(RecordDraft(app.settings, app.timer.mode, app.timer.timeLeft, now), now)
      ensures app.timeEntries == old(app.timeEntries) + [e]
      ensures app.tasks == old(app.tasks) && app.settings == old(app.settings) && app.categories == old(app.categories)
    {
      var draft := RecordDraft(app.settings, app.timer.mode, app.timer.timeLeft, now);
      e := app.AddTimeEntry(draft, now);
    }

    /**
     * `switchMode`: leaves work for a long break when the number of work
     * pomodoros in the log is a multiple of four, otherwise for a short break;
     * leaves any break for work; then resets.
     */
    method SwitchMode()
      requires Valid()
      modifies app.timer, clock
      ensures Valid()
      ensures app.timer.mode == NextMode(old(app.timer.mode), Count(app.timeEntries, IsWorkPomodoro))
      ensures !app.timer.isRunning && !app.timer.isPaused
      ensures app.timer.timeLeft == ModeDuration(app.settings, app.timer.mode)
      ensures app.timer.interval == old(app.timer.interval) && clock.next == old(clock.next)
      ensures clock.live == if old(app.timer.interval).Some? then old(clock.live) - {old(app.timer.interval).value} else old(clock.live)
    {
      if app.timer.mode == Work {
        var completedWorkSessions := Count(app.timeEntries, IsWorkPomodoro);
        if completedWorkSessions % 4 == 0 {
          app.timer.mode := LongBreak;
        } else {
          app.timer.mode := Break;
        }
      } else {
        app.timer.mode := Work;
      }
      Reset();
    }
  }

  /**
   * A work phase run to the end under the default settings, after loading a log
   * `history`: `start` at time `startedAt`, then one `tick` per second. The
   * 1500th tick brings the time left to zero and the 1501st completes the
   * phase, so the entry records 1500 seconds but ends 1501 seconds after the
   * start. The timer then waits in a short break of 300 seconds, or in a long
   * break of 900 seconds when this was the fourth work session.
   */
  method RunWorkPhase(history: seq<TimeEntry>, startedAt: nat) returns (entry: TimeEntry, next: Mode, timeLeft: int, ticks: nat)
    ensures ticks == 1501
    ensures entry.mode == Work && entry.entryType == "pomodoro" && entry.duration == 1500
    ensures entry.endTime == startedAt + 1501 * 1000 && entry.startTime == startedAt + 1000
    ensures (Count(history, IsWorkPomodoro) + 1) % 4 == 0 ==> next == LongBreak && timeLeft == 900
    ensures (Count(history, IsWorkPomodoro) + 1) % 4 != 0 ==> next == Break && timeLeft == 300
  {
    var app := new AppState(None, Some(history), None, None);
    var pomodoro := new PomodoroManager(app);
    pomodoro.Start();
    ticks := 0;
    while ticks < 1500
      invariant 0 <= ticks <= 1500
      invariant pomodoro.app == app && pomodoro.Valid()
      invariant app.settings == DefaultSettings && app.timeEntries == history
      invariant app.timer.mode == Work && app.timer.timeLeft == 1500 - ticks
    {
      ticks := ticks + 1;
      pomodoro.Tick(startedAt + ticks * 1000);
    }
    ticks := ticks + 1;
    pomodoro.Tick(startedAt + ticks * 1000);
    entry := app.timeEntries[|history|];
    next := app.timer.mode;
    timeLeft := app.timer.timeLeft;
    assert next != Work && (next == LongBreak <==> (Count(history, IsWorkPomodoro) + 1) % 4 == 0);
    assert timeLeft == ModeDuration(DefaultSettings, next);
  }
}
