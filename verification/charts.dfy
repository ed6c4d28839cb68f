/**
 * The data behind the analytics charts (`ChartManager.get*Data`): focus time per
 * category, and the completion percentage and completed-task count of each of
 * the last seven days. The Chart.js drawing is not part of this model.
 */
module Charts {
  import opened Seqs
  import opened Domain
  import opened Store
  import opened Utils
  import opened Tasks
  import Metrics

  /** `entry.categoryId || 'work'`: a missing or empty category counts as work. */
  function EntryCategory(e: TimeEntry): (c: string)
    ensures c != ""
    ensures e.categoryId.Some? && e.categoryId.value != "" ==> c == e.categoryId.value
  {
    match e.categoryId
    case Some(id) => if id != "" then id else "work"
    case None => "work"
  }

  /** The seconds logged under one category: what `categoryStats[c]` accumulates. */
  function CategoryTotal(entries: seq<TimeEntry>, c: string): int
    decreases |entries|
  {
    if entries == [] then 0
    else
      var last := entries[|entries| - 1];
      CategoryTotal(entries[..|entries| - 1], c) + if EntryCategory(last) == c then last.duration else 0
  }

  /** Adding an entry adds its duration to its own category's total only. */
  lemma CategoryTotalSnoc(entries: seq<TimeEntry>, e: TimeEntry, c: string)
    ensures CategoryTotal(entries + [e], c)
      == CategoryTotal(entries, c) + if EntryCategory(e) == c then e.duration else 0
  {
    assert (entries + [e])[..|entries|] == entries;
  }

  /** A category no entry belongs to has a zero total. */
  lemma {:induction false} CategoryTotalAbsent(entries: seq<TimeEntry>, c: string)
    requires forall e :: e in entries ==> EntryCategory(e) != c
    ensures CategoryTotal(entries, c) == 0
    decreases |entries|
  {
    if entries != [] {
      var init := entries[..|entries| - 1];
      assert forall e :: e in init ==> e in entries;
      CategoryTotalAbsent(init, c);
    }
  }

  /** A category's total is the sum of the durations of the entries filed under it. */
  lemma {:induction false} CategoryTotalIsFilteredSum(entries: seq<TimeEntry>, c: string)
    ensures CategoryTotal(entries, c) == TotalDuration(Filter(entries, EntryIn(c)))
    decreases |entries|
  {
    if entries != [] {
      var init := entries[..|entries| - 1];
      var last := entries[|entries| - 1];
      assert entries == init + [last];
      CategoryTotalIsFilteredSum(init, c);
      FilterSnoc(init, last, EntryIn(c));
      TotalDurationConcat(Filter(init, EntryIn(c)), [last]);
      assert TotalDuration([last]) == last.duration by {
        assert [last][..0] == [];
      }
    }
  }

  function EntryIn(c: string): TimeEntry -> bool { (e: TimeEntry) => EntryCategory(e) == c }

  /**
   * The categories of the entries in order of first appearance: the key order
   * of the `categoryStats` object, whose keys are inserted as they are first met.
   */
  function FirstSeen(entries: seq<TimeEntry>): (keys: seq<string>)
    decreases |entries|
  {
    if entries == [] then []
    else
      var keys := FirstSeen(entries[..|entries| - 1]);
      var c := EntryCategory(entries[|entries| - 1]);
      if c in keys then keys else keys + [c]
  }

  /** Every category that occurs is listed, only those, and none twice. */
  lemma {:induction false} FirstSeenSpec(entries: seq<TimeEntry>)
    ensures forall e :: e in entries ==> EntryCategory(e) in FirstSeen(entries)
    ensures forall c :: c in FirstSeen(entries) ==> exists e :: e in entries && EntryCategory(e) == c
    ensures forall i, j :: 0 <= i < j < |FirstSeen(entries)| ==> FirstSeen(entries)[i] != FirstSeen(entries)[j]
    decreases |entries|
  {
    if entries != [] {
      var init := entries[..|entries| - 1];
      var last := entries[|entries| - 1];
      assert entries == init + [last];
      FirstSeenSpec(init);
      forall c | c in FirstSeen(entries)
        ensures exists e :: e in entries && EntryCategory(e) == c
      {
        if c in FirstSeen(init) {
          var e :| e in init && EntryCategory(e) == c;
          assert e in entries;
        } else {
          assert EntryCategory(last) == c;
        }
      }
    }
  }

  /** One more entry adds its category at the end when it is new. */
  lemma FirstSeenSnoc(entries: seq<TimeEntry>, e: TimeEntry)
    ensures FirstSeen(entries + [e]) == if EntryCategory(e) in FirstSeen(entries) then FirstSeen(entries)
      else FirstSeen(entries) + [EntryCategory(e)]
  {
    assert (entries + [e])[..|entries|] == entries;
  }

  /** The sum of the category totals over a list of categories. */
  function SumTotals(entries: seq<TimeEntry>, keys: seq<string>): int
    decreases |keys|
  {
    if keys == [] then 0
    else SumTotals(entries, keys[..|keys| - 1]) + CategoryTotal(entries, keys[|keys| - 1])
  }

  /** One more entry adds its duration to the sum once if its category is listed (once), else not at all. */
  lemma {:induction false} SumTotalsSnoc(entries: seq<TimeEntry>, e: TimeEntry, keys: seq<string>)
    requires forall i, j :: 0 <= i < j < |keys| ==> keys[i] != keys[j]
    ensures SumTotals(entries + [e], keys)
      == SumTotals(entries, keys) + if EntryCategory(e) in keys then e.duration else 0
    decreases |keys|
  {
    if keys != [] {
      var init := keys[..|keys| - 1];
      var last := keys[|keys| - 1];
      assert keys == init + [last];
      assert last !in init by {
        forall i | 0 <= i < |init| ensures init[i] != last { assert keys[i] != keys[|keys| - 1]; }
      }
      SumTotalsSnoc(entries, e, init);
      CategoryTotalSnoc(entries, e, last);
    }
  }

  /**
   * The per-category totals partition the log: summed over the categories that
   * occur, they give the total of all durations, so no entry is lost or counted twice.
   */
  lemma {:induction false} CategoryTotalsPartition(entries: seq<TimeEntry>)
    ensures SumTotals(entries, FirstSeen(entries)) == TotalDuration(entries)
    decreases |entries|
  {
    if entries != [] {
      var init := entries[..|entries| - 1];
      var last := entries[|entries| - 1];
      assert entries == init + [last];
      var keys := FirstSeen(init);
      var c := EntryCategory(last);
      CategoryTotalsPartition(init);
      FirstSeenSpec(init);
      SumTotalsSnoc(init, last, keys);
      if c !in keys {
        assert keys + [c] == FirstSeen(entries);
        assert (keys + [c])[..|keys|] == keys;
        CategoryTotalAbsent(init, c);
        CategoryTotalSnoc(init, last, c);
      }
    }
  }

  /** The completion percentage of the tasks due on a day, as the trend chart and `getTodayStats` compute it. */
  function DayProductivity(tasks: seq<Task>, day: int): (p: int)
    ensures 0 <= p <= 100
    ensures Filter(tasks, DueOn(day)) == [] ==> p == 0
    ensures Count(tasks, CompletedDueOn(day)) == |Filter(tasks, DueOn(day))| > 0 ==> p == 100
    ensures p == Metrics.Productivity(Count(tasks, CompletedDueOn(day)), |Filter(tasks, DueOn(day))|)
  {
    var dayTasks := Filter(tasks, DueOn(day));
    var completed := Filter(dayTasks, HasStatus(Completed));
    FilterNested(tasks, day);
    Metrics.ProductivityBounds(|completed|, |dayTasks|);
    Metrics.Productivity(|completed|, |dayTasks|)
  }

  /**
   * Resetting a missing or zero total to 0 and then adding is adding to the
   * total, or to 0 when there is none.
   */
  lemma ResetThenAdd(stats: map<string, int>, c: string, d: int)
    ensures var reset := if c !in stats || stats[c] == 0 then stats[c := 0] else stats;
      reset[c := reset[c] + d] == stats[c := (if c in stats then stats[c] else 0) + d]
  {
    if c !in stats || stats[c] == 0 {
      assert stats[c := 0][c := 0 + d] == stats[c := d];
    }
  }

  /**
   * The per-category totals folded over the log one entry at a time, each entry
   * adding its duration to its category's total (a new category starting at 0).
   */
  function Totals(entries: seq<TimeEntry>): (stats: map<string, int>)
    decreases |entries|
  {
    if entries == [] then map[]
    else
      var before := Totals(entries[..|entries| - 1]);
      var last := entries[|entries| - 1];
      var c := EntryCategory(last);
      before[c := (if c in before then before[c] else 0) + last.duration]
  }

  /**
   * The folded map has exactly the categories that occur as keys, and under
   * each the sum of that category's durations.
   */
  lemma {:induction false} TotalsMeaning(entries: seq<TimeEntry>)
    ensures forall c :: c in Totals(entries) <==> c in FirstSeen(entries)
    ensures forall c :: c in Totals(entries) ==> Totals(entries)[c] == CategoryTotal(entries, c)
    decreases |entries|
  {
    if entries != [] {
      var init := entries[..|entries| - 1];
      var last := entries[|entries| - 1];
      assert entries == init + [last];
      TotalsMeaning(init);
      FirstSeenSpec(init);
      FirstSeenSnoc(init, last);
      forall d | d in Totals(entries)
        ensures Totals(entries)[d] == CategoryTotal(entries, d)
      {
        CategoryTotalSnoc(init, last, d);
        if d !in FirstSeen(init) {
          CategoryTotalAbsent(init, d);
        }
      }
    }
  }

  lemma TotalsAt(entries: seq<TimeEntry>, c: string)
    requires c in FirstSeen(entries)
    ensures c in Totals(entries) && Totals(entries)[c] == CategoryTotal(entries, c)
  {
    TotalsMeaning(entries);
  }

  /** What one more entry does to the categories met and to their totals. */
  lemma TallyStep(entries: seq<TimeEntry>, i: nat)
    requires i < |entries|
    ensures var c := EntryCategory(entries[i]);
      var t := Totals(entries[..i]);
      && (c in t <==> c in FirstSeen(entries[..i]))
      && FirstSeen(entries[..i + 1]) == (if c in t then FirstSeen(entries[..i]) else FirstSeen(entries[..i]) + [c])
      && Totals(entries[..i + 1]) == t[c := (if c in t then t[c] else 0) + entries[i].duration]
  {
    assert entries[..i + 1][..i] == entries[..i];
    assert entries[..i + 1] == entries[..i] + [entries[i]];
    TotalsMeaning(entries[..i]);
    FirstSeenSnoc(entries[..i], entries[i]);
  }

  /**
   * The `categoryStats` accumulation of `getCategoryTimeData`: the total per
   * category, with the categories in the order they were first met. A total
   * that is 0 is reset to 0 before the addition, as the falsy test does.
   */
  method TallyByCategory(entries: seq<TimeEntry>) returns (stats: map<string, int>, keys: seq<string>)
    ensures keys == FirstSeen(entries)
    ensures stats == Totals(entries)
  {
    stats, keys := map[], [];
    var i := 0;
    while i < |entries|
      invariant 0 <= i <= |entries|
      invariant keys == FirstSeen(entries[..i])
      invariant stats == Totals(entries[..i])
    {
      var e := entries[i];
      var c := EntryCategory(e);
      TallyStep(entries, i);
      ResetThenAdd(stats, c, e.duration);
      if c !in stats || stats[c] == 0 {
        if c !in stats {
          keys := keys + [c];
        }
        stats := stats[c := 0];
      }
      stats := stats[c := stats[c] + e.duration];
      i := i + 1;
    }
    assert entries[..i] == entries;
  }

  /** The slice labels: each category's name, or the uncategorised label. */
  function CategoryLabels(categories: seq<Category>, keys: seq<string>): (labels: seq<string>)
    ensures |labels| == |keys|
    ensures forall k :: 0 <= k < |keys| ==> labels[k] == GetCategoryName(categories, keys[k])
  {
    seq(|keys|, j requires 0 <= j < |keys| => GetCategoryName(categories, keys[j]))
  }

  /** The slice colours: each category's colour, or the default indigo. */
  function CategoryColors(categories: seq<Category>, keys: seq<string>): (colors: seq<string>)
    ensures |colors| == |keys|
    ensures forall k :: 0 <= k < |keys| ==> colors[k] == GetCategoryColor(categories, keys[k])
  {
    seq(|keys|, j requires 0 <= j < |keys| => GetCategoryColor(categories, keys[j]))
  }

  /** The slice sizes: each category's total rounded to tenths of a minute (`Math.round(time / 60 * 10)`). */
  function CategoryTenths(entries: seq<TimeEntry>, keys: seq<string>): (data: seq<int>)
    ensures |data| == |keys|
    ensures forall k :: 0 <= k < |keys| ==> data[k] == Metrics.RoundDiv(CategoryTotal(entries, keys[k]), 6)
  {
    seq(|keys|, j requires 0 <= j < |keys| => Metrics.RoundDiv(CategoryTotal(entries, keys[j]), 6))
  }

  /**
   * Each slice is its category's seconds to the nearest tenth of a minute, a
   * category that is not a known one is labelled uncategorised in indigo, and
   * the slices cover every category that occurs, once.
   */
  lemma CategorySlices(categories: seq<Category>, entries: seq<TimeEntry>)
    ensures var keys := FirstSeen(entries);
      var data := CategoryTenths(entries, keys);
      && (forall k :: 0 <= k < |keys| ==>
            12 * data[k] - 6 <= 2 * CategoryTotal(entries, keys[k]) < 12 * data[k] + 6)
      && (forall k :: 0 <= k < |keys| && (forall c :: c in categories ==> c.id != keys[k]) ==>
            CategoryLabels(categories, keys)[k] == "未分类" && CategoryColors(categories, keys)[k] == "#6366f1")
      && (forall e :: e in entries ==> EntryCategory(e) in keys)
      && (forall i, j :: 0 <= i < j < |keys| ==> keys[i] != keys[j])
  {
    var keys := FirstSeen(entries);
    FirstSeenSpec(entries);
    forall k | 0 <= k < |keys|
      ensures 12 * CategoryTenths(entries, keys)[k] - 6 <= 2 * CategoryTotal(entries, keys[k])
              < 12 * CategoryTenths(entries, keys)[k] + 6
    {
      assert CategoryTenths(entries, keys)[k] == Metrics.RoundDiv(CategoryTotal(entries, keys[k]), 6);
    }
  }

  class ChartManager {
    const app: AppState

    constructor (app: AppState)
      ensures this.app == app
    {
      this.app := app;
    }

    /**
     * `getCategoryTimeData`: one slice per category met in the log, in the order
     * first met, labelled with the category's name and colour (or the
     * uncategorised fallbacks) and sized by its total in tenths of a minute.
     */
    method GetCategoryTimeData() returns (labels: seq<string>, data: seq<int>, colors: seq<string>)
      ensures labels == CategoryLabels(app.categories, FirstSeen(app.timeEntries))
      ensures colors == CategoryColors(app.categories, FirstSeen(app.timeEntries))
      ensures data == CategoryTenths(app.timeEntries, FirstSeen(app.timeEntries))
    {
      var entries := app.timeEntries;
      var categories := app.categories;
      var stats, keys := TallyByCategory(entries);
      labels, data, colors := [], [], [];
      var k := 0;
      while k < |keys|
        invariant 0 <= k <= |keys|
        invariant labels == CategoryLabels(categories, keys)[..k]
        invariant colors == CategoryColors(categories, keys)[..k]
        invariant data == CategoryTenths(entries, keys)[..k]
      {
        var c := keys[k];
        TotalsAt(entries, c);
        PrefixSnoc(CategoryLabels(categories, keys), k);
        PrefixSnoc(CategoryColors(categories, keys), k);
        PrefixSnoc(CategoryTenths(entries, keys), k);
        labels := labels + [GetCategoryName(categories, c)];
        data := data + [Metrics.RoundDiv(stats[c], 6)];
        colors := colors + [GetCategoryColor(categories, c)];
        k := k + 1;
      }
    }

    /**
     * `getProductivityTrendData`: the seven days ending today, oldest first, each
     * with the completion percentage of the tasks due that day. The labels are
     * the day numbers.
     */
    method GetProductivityTrendData(today: int) returns (labels: seq<int>, data: seq<int>)
      ensures labels == LastWeek(today)
      ensures data == ProductivitySeries(app.tasks, today)
    {
      var tasks := app.tasks;
      labels, data := [], [];
      var i := 6;
      while i >= 0
        invariant -1 <= i <= 6
        invariant labels == LastWeek(today)[..6 - i]
        invariant data == ProductivitySeries(tasks, today)[..6 - i]
      {
        var day := today - i;
        labels := labels + [day];
        data := data + [DayProductivity(tasks, day)];
        i := i - 1;
      }
    }

    /**
     * `getTaskCompletionData`: the seven days ending today, oldest first, each
     * with the number of completed tasks due that day.
     */
    method GetTaskCompletionData(today: int) returns (labels: seq<int>, data: seq<int>)
      ensures labels == LastWeek(today)
      ensures data == CompletionSeries(app.tasks, today)
    {
      var tasks := app.tasks;
      labels, data := [], [];
      var i := 6;
      while i >= 0
        invariant -1 <= i <= 6
        invariant labels == LastWeek(today)[..6 - i]
        invariant data == CompletionSeries(tasks, today)[..6 - i]
      {
        var day := today - i;
        labels := labels + [day];
        data := data + [Count(tasks, CompletedDueOn(day))];
        i := i - 1;
      }
    }
  }

  /** The seven days ending with `today`, oldest first. */
  function LastWeek(today: int): (days: seq<int>)
    ensures |days| == 7 && days[0] == today - 6 && days[6] == today
    ensures forall i, j :: 0 <= i < j < 7 ==> days[i] < days[j]
  {
    seq(7, k => today - 6 + k)
  }

  /** The completion percentage of each of the seven days ending today. */
  function ProductivitySeries(tasks: seq<Task>, today: int): (data: seq<int>)
    ensures |data| == 7
  {
    seq(7, k => DayProductivity(tasks, today - 6 + k))
  }

  /** The number of completed tasks due on each of the seven days ending today. */
  function CompletionSeries(tasks: seq<Task>, today: int): (data: seq<int>)
    ensures |data| == 7
    ensures forall k :: 0 <= k < 7 ==> data[k] == Count(tasks, CompletedDueOn(today - 6 + k))
  {
    seq(7, k => Count(tasks, CompletedDueOn(today - 6 + k)))
  }

  /**
   * Both series hold one figure per day of the last week: every percentage
   * lies in 0..100 and is 0 on a day with nothing due, and no day counts more
   * completed tasks than tasks due.
   */
  lemma SeriesBounds(tasks: seq<Task>, today: int)
    ensures forall k :: 0 <= k < 7 ==> 0 <= ProductivitySeries(tasks, today)[k] <= 100
    ensures forall k :: 0 <= k < 7 && Filter(tasks, DueOn(today - 6 + k)) == [] ==> ProductivitySeries(tasks, today)[k] == 0
    ensures forall k :: 0 <= k < 7 ==> CompletionSeries(tasks, today)[k] <= |Filter(tasks, DueOn(today - 6 + k))|
  {
    forall k | 0 <= k < 7
      ensures 0 <= ProductivitySeries(tasks, today)[k] <= 100
      ensures Filter(tasks, DueOn(today - 6 + k)) == [] ==> ProductivitySeries(tasks, today)[k] == 0
      ensures CompletionSeries(tasks, today)[k] <= |Filter(tasks, DueOn(today - 6 + k))|
    {
      var day := today - 6 + k;
      assert ProductivitySeries(tasks, today)[k] == DayProductivity(tasks, day);
      assert CompletionSeries(tasks, today)[k] == Count(tasks, CompletedDueOn(day));
      CompletedWithinDue(tasks, day);
    }
  }

  /** No day has more completed tasks due than tasks due. */
  lemma CompletedWithinDue(tasks: seq<Task>, day: int)
    ensures Count(tasks, CompletedDueOn(day)) <= |Filter(tasks, DueOn(day))|
  {
    FilterNested(tasks, day);
  }

  /**
   * The last point of both series is today's figure on the dashboard: the
   * percentage and the completed count `getTodayStats` reports.
   */
  lemma SeriesEndWithToday(app: AppState, today: int)
    ensures ProductivitySeries(app.tasks, today)[6] == app.GetTodayStats(today).productivity
    ensures CompletionSeries(app.tasks, today)[6] == app.GetTodayStats(today).completedTasks
  {
    var todayTasks := app.TodayTasks(today);
    assert ProductivitySeries(app.tasks, today)[6] == DayProductivity(app.tasks, today);
    assert DayProductivity(app.tasks, today)
      == Metrics.Productivity(|Filter(todayTasks, HasStatus(Completed))|, |todayTasks|);
  }
}
