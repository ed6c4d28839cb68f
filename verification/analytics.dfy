/**
 * The figures of the dashboard and the analytics page (`PageManager`): today's
 * completed tasks, focus time and percentage, the all-time totals, and the run
 * of consecutive days with a completed task. Writing them into the page is not
 * part of this model; the methods return what would be shown.
 */
module Analytics {
  import opened Seqs
  import opened Text
  import opened Domain
  import opened Store
  import opened Utils
  import Metrics

  /** `dayTasks.some(task => task.status === 'completed')` over the tasks due on `day`. */
  function HasCompletedOn(tasks: seq<Task>, day: int): (b: bool)
    ensures b <==> exists t :: t in tasks && t.dueDate == Some(day) && t.status == Completed
  {
    var dayTasks := Filter(tasks, DueOn(day));
    exists t :: t in dayTasks && t.status == Completed
  }

  /**
   * `s` is the streak the analytics page reports for `today`: counting from
   * today, or from yesterday when today has no completed task, the number of
   * consecutive days with one, looking back 30 days at most. The run is stated
   * as the window of days `today - first - s + 1 ..= today - first`.
   */
  ghost predicate IsStreak(tasks: seq<Task>, today: int, s: nat)
  {
    var first := if HasCompletedOn(tasks, today) then 0 else 1;
    && first + s <= 30
    && (forall d :: today - first - s < d <= today - first ==> HasCompletedOn(tasks, d))
    && (first + s < 30 ==> !HasCompletedOn(tasks, today - first - s))
  }

  /** The characterisation fixes the streak: two values that both satisfy it are equal. */
  lemma IsStreakUnique(tasks: seq<Task>, today: int, s1: nat, s2: nat)
    requires IsStreak(tasks, today, s1) && IsStreak(tasks, today, s2)
    ensures s1 == s2
  {
  }

  /** What the analytics page shows. */
  datatype AnalyticsStats = AnalyticsStats(
    totalTasks: nat,
    totalFocusTime: int,
    totalFocusLabel: string,
    avgProductivity: int,
    streakDays: nat)

  /**
   * What the dashboard's three figures show. The focus figure is `focusTime`
   * times ten: seconds in tenths of a minute, displayed with an hour suffix.
   */
  datatype DashboardStats = DashboardStats(completedTasks: nat, focusTenths: int, productivity: int)

  /**
   * The all-time focus label as the analytics page builds it: the total in
   * seconds handed to `formatTimeDuration`, which expects minutes.
   */
  function FocusLabelAsWritten(seconds: int): (shown: string)
    ensures seconds >= 0 ==> ParseDuration(shown) == Some(seconds)
  {
    if seconds >= 0 then FormatTimeDurationRoundTrip(seconds); FormatTimeDuration(seconds)
    else FormatTimeDuration(seconds)
  }

  /** One 25-minute pomodoro (1500 seconds) is shown as 25 hours. */
  lemma FocusLabelAsWrittenOverstates()
    ensures FocusLabelAsWritten(1500) == "25h 0m"
    ensures FocusLabel(1500) == "25m"
  {
    FormatOf1500();
    FormatOf25();
    assert 1500 / 60 == 25;
  }

  lemma FormatOf1500()
    ensures FormatTimeDuration(1500) == "25h 0m"
  {
    TwentyFive();
    assert NatToString(0) == "0";
    assert JsRem(1500, 60) == 0;
    assert FormatTimeDuration(1500) == NatToString(25) + "h " + NatToString(0) + "m";
  }

  lemma FormatOf25()
    ensures FormatTimeDuration(25) == "25m"
  {
    TwentyFive();
    assert JsRem(25, 60) == 25;
    assert FormatTimeDuration(25) == NatToString(25) + "m";
  }

  lemma TwentyFive()
    ensures NatToString(25) == "25"
  {
    assert NatToString(2) == "2";
    assert NatToString(25) == NatToString(2) + [DigitChar(5)];
  }

  /** The all-time focus label with the seconds converted to whole minutes first. */
  function FocusLabel(seconds: int): (shown: string)
    ensures seconds >= 0 ==> ParseDuration(shown) == Some(seconds / 60)
    ensures 0 <= seconds < 3600 ==> 'h' !in shown
    ensures seconds >= 3600 ==> 'h' in shown
  {
    if seconds >= 0 then
      FormatTimeDurationRoundTrip(seconds / 60);
      FormatTimeDurationShape(seconds / 60);
      if seconds < 3600 then
        DigitsHaveNoH(NatToString(seconds / 60));
        FormatTimeDuration(seconds / 60)
      else FormatTimeDuration(seconds / 60)
    else FormatTimeDuration(seconds / 60)
  }

  /**
   * The dashboard's focus figure as written: `getTodayStats().focusTime`, which
   * is seconds in tenths of a minute, shown with an hour suffix.
   */
  function DashboardFocusAsWritten(seconds: int): (tenths: int)
    ensures 12 * tenths - 6 <= 2 * seconds < 12 * tenths + 6
  {
    Metrics.RoundDiv(seconds, 6)
  }

  /** A 1500-second pomodoro shows as 25.0 "h" on the dashboard; in hours it is 0.4. */
  lemma DashboardFocusOverstates()
    ensures DashboardFocusAsWritten(1500) == 250
    ensures FocusHoursTenths(1500) == 4
  {
    Metrics.RoundDivUnique(1500, 6, 250);
    Metrics.RoundDivUnique(1500, 360, 4);
  }

  /** Seconds to the nearest tenth of an hour: what an "h" figure with one decimal means. */
  function FocusHoursTenths(seconds: int): (tenths: int)
    ensures 720 * tenths - 360 <= 2 * seconds < 720 * tenths + 360
    ensures seconds >= 0 ==> tenths >= 0
  {
    Metrics.RoundDiv(seconds, 360)
  }

  class PageManager {
    const app: AppState

    constructor (app: AppState)
      ensures this.app == app
    {
      this.app := app;
    }

    /**
     * `calculateStreakDays`: scans today and the 29 days before it, counting
     * days with a completed task due; the first day without one ends the scan,
     * unless it is today.
     */
    method CalculateStreakDays(today: int) returns (streak: nat)
      ensures streak <= 30
      ensures IsStreak(app.tasks, today, streak)
      ensures HasCompletedOn(app.tasks, today) ==> streak >= 1
    {
      var tasks := app.tasks;
      ghost var first := if HasCompletedOn(tasks, today) then 0 else 1;
      streak := 0;
      var i := 0;
      while i < 30
        invariant 0 <= i <= 30
        invariant i == 0 ==> streak == 0
        invariant i > 0 ==> streak == i - first
        invariant forall d :: today - i < d <= today - first ==> HasCompletedOn(tasks, d)
      {
        var hasCompletedTasks := HasCompletedOn(tasks, today - i);
        if hasCompletedTasks {
          streak := streak + 1;
        } else if i > 0 {
          break;
        }
        i := i + 1;
      }
    }

    /**
     * `updateAnalyticsStats`: the number of tasks, the focus seconds of the
     * whole log and the label `formatTimeDuration` gives them (read as
     * minutes), the share of completed tasks among all tasks, and the streak.
     */
    method UpdateAnalyticsStats(today: int) returns (stats: AnalyticsStats)
      ensures stats.totalTasks == |app.tasks|
      ensures stats.totalFocusTime == TotalDuration(app.timeEntries)
      ensures stats.totalFocusLabel == FocusLabelAsWritten(stats.totalFocusTime)
      ensures stats.totalFocusTime >= 0 ==> ParseDuration(stats.totalFocusLabel) == Some(stats.totalFocusTime)
      ensures stats.avgProductivity == Metrics.Productivity(Count(app.tasks, HasStatus(Completed)), |app.tasks|)
      ensures 0 <= stats.avgProductivity <= 100
      ensures IsStreak(app.tasks, today, stats.streakDays)
    {
      var totalTasks := |app.tasks|;
      var totalFocusTime := TotalDuration(app.timeEntries);
      var completed := Count(app.tasks, HasStatus(Completed));
      Metrics.ProductivityBounds(completed, totalTasks);
      var avgProductivity := Metrics.Productivity(completed, totalTasks);
      var streak := CalculateStreakDays(today);
      stats := AnalyticsStats(totalTasks, totalFocusTime, FormatTimeDuration(totalFocusTime), avgProductivity, streak);
    }

    /**
     * `updateDashboardStats`: today's completed count, percentage and focus
     * figure, all as `getTodayStats` reports them.
     */
    method UpdateDashboardStats(today: int) returns (stats: DashboardStats)
      ensures stats.completedTasks == app.GetTodayStats(today).completedTasks
      ensures stats.productivity == app.GetTodayStats(today).productivity
      ensures stats.focusTenths == app.GetTodayStats(today).focusTenths
      ensures stats.focusTenths == DashboardFocusAsWritten(TotalDuration(app.TimeEntriesByDate(today)))
    {
      var s := app.GetTodayStats(today);
      var focus := TotalDuration(app.TimeEntriesByDate(today));
      Metrics.RoundDivUnique(focus, 6, s.focusTenths);
      stats := DashboardStats(s.completedTasks, s.focusTenths, s.productivity);
    }
  }
}
