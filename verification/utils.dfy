/**
 * The `utils` helpers: the clock display of the timer, the hour-and-minute
 * rendering of a duration, and the colour lookups with their fallbacks.
 */
module Utils {
  import opened Text
  import opened Domain

  /** The two halves of the timer display. */
  datatype Clock = Clock(minutes: string, seconds: string)

  /**
   * `formatTime(seconds)`: whole minutes (`Math.floor(seconds / 60)`) and the
   * remaining seconds (`seconds % 60`), each padded to two characters.
   */
  function FormatTime(seconds: int): (c: Clock)
    ensures |c.minutes| >= 2 && |c.seconds| >= 2
  {
    Clock(PadStart2(IntToString(seconds / 60)), PadStart2(IntToString(JsRem(seconds, 60))))
  }

  /** Padding a number's digits with leading zeros does not change the value they read as. */
  lemma ParsePadded(n: nat)
    ensures AllDigits(PadStart2(NatToString(n)))
    ensures ParseDigits(PadStart2(NatToString(n))) == n
  {
    var s := NatToString(n);
    ParseNatToString(n);
    if |s| == 1 {
      ParseLeadingZero(s);
    }
  }

  /**
   * For a non-negative count the display is two or more minute digits and
   * exactly two second digits below 60, and reading it back gives the count.
   */
  lemma FormatTimeRoundTrip(seconds: nat)
    ensures var c := FormatTime(seconds);
      && AllDigits(c.minutes) && AllDigits(c.seconds)
      && |c.minutes| >= 2 && |c.seconds| == 2
      && ParseDigits(c.seconds) < 60
      && 60 * ParseDigits(c.minutes) + ParseDigits(c.seconds) == seconds
  {
    ParsePadded(seconds / 60);
    ParsePadded(seconds % 60);
  }

  /**
   * `formatTimeDuration(minutes)`: `"<h>h <m>m"` when there is at least one
   * whole hour, `"<m>m"` otherwise, with `m` the JavaScript remainder.
   */
  function FormatTimeDuration(minutes: int): (s: string)
    ensures |s| >= 2 && s[|s| - 1] == 'm'
  {
    var hours := minutes / 60;
    var mins := JsRem(minutes, 60);
    if hours > 0 then IntToString(hours) + "h " + IntToString(mins) + "m"
    else IntToString(mins) + "m"
  }

  /** Reads a duration rendered as `"<h>h <m>m"` or `"<m>m"` back into minutes. */
  function ParseDuration(s: string): Option<int>
  {
    if |s| == 0 || s[|s| - 1] != 'm' then None else ParseBody(s[..|s| - 1])
  }

  /** The text before the final `m`: minutes alone, or hours, `h`, a space and minutes. */
  function ParseBody(body: string): Option<int>
  {
    var i := IndexOf(body, 'h');
    if i == -1 then
      (if body != [] && AllDigits(body) then Some(ParseDigits(body)) else None)
    else ParseParts(body[..i], body[i + 1..])
  }

  function ParseParts(hours: string, rest: string): Option<int>
  {
    if hours != [] && AllDigits(hours) && |rest| >= 2 && rest[0] == ' ' && AllDigits(rest[1..])
    then Some(60 * ParseDigits(hours) + ParseDigits(rest[1..]))
    else None
  }

  lemma DigitsHaveNoH(s: string)
    requires AllDigits(s)
    ensures 'h' !in s
  {
    forall k | 0 <= k < |s| ensures s[k] != 'h' { assert IsDigit(s[k]); }
  }

  /** `"<m>m"` reads back as `m` minutes. */
  lemma ParseMinutesOnly(m: string)
    requires m != [] && AllDigits(m)
    ensures ParseDuration(m + "m") == Some(ParseDigits(m))
  {
    var s := m + "m";
    assert s[..|s| - 1] == m;
    DigitsHaveNoH(m);
  }

  /** `"<h>h <m>m"` reads back as `60 h + m` minutes. */
  lemma ParseHoursAndMinutes(h: string, m: string)
    requires h != [] && AllDigits(h) && m != [] && AllDigits(m)
    ensures ParseDuration(h + "h " + m + "m") == Some(60 * ParseDigits(h) + ParseDigits(m))
  {
    var body := h + "h " + m;
    assert (body + "m")[..|body|] == body;
    ParseBodyHours(h, m);
    ParsePartsMinutes(h, m);
  }

  lemma ParseBodyHours(h: string, m: string)
    requires AllDigits(h)
    ensures ParseBody(h + "h " + m) == ParseParts(h, " " + m)
  {
    var body := h + "h " + m;
    assert body[..|h|] == h;
    assert body[|h| + 1..] == " " + m;
    DigitsHaveNoH(h);
    IndexOfAt(body, 'h', |h|);
  }

  lemma ParsePartsMinutes(h: string, m: string)
    requires h != [] && AllDigits(h) && m != [] && AllDigits(m)
    ensures ParseParts(h, " " + m) == Some(60 * ParseDigits(h) + ParseDigits(m))
  {
    assert (" " + m)[1..] == m;
  }

  /** Every non-negative number of minutes is rendered so that it reads back as itself. */
  lemma FormatTimeDurationRoundTrip(minutes: nat)
    ensures ParseDuration(FormatTimeDuration(minutes)) == Some(minutes)
  {
    if minutes >= 60 {
      RoundTripWithHours(minutes);
    } else {
      assert JsRem(minutes, 60) == minutes;
      ParseNatToString(minutes);
      ParseMinutesOnly(NatToString(minutes));
    }
  }

  lemma RoundTripWithHours(minutes: nat)
    requires minutes >= 60
    ensures ParseDuration(FormatTimeDuration(minutes)) == Some(minutes)
  {
    var h, m := NatToString(minutes / 60), NatToString(minutes % 60);
    RenderWithHours(minutes);
    ParseNatToString(minutes % 60);
    ParseNatToString(minutes / 60);
    ParseHoursAndMinutes(h, m);
    assert 60 * ParseDigits(h) + ParseDigits(m) == minutes;
  }

  /** From one hour on, the rendering is the hour digits, `h `, the minute digits and `m`. */
  lemma RenderWithHours(minutes: nat)
    requires minutes >= 60
    ensures FormatTimeDuration(minutes) == NatToString(minutes / 60) + "h " + NatToString(minutes % 60) + "m"
  {
    assert JsRem(minutes, 60) == minutes % 60;
  }

  /** At least one hour is shown with an hour part; under an hour, as minutes alone. */
  lemma FormatTimeDurationShape(minutes: nat)
    ensures minutes >= 60 ==> 'h' in FormatTimeDuration(minutes)
    ensures minutes < 60 ==> FormatTimeDuration(minutes) == NatToString(minutes) + "m"
  {
    var hours, mins := minutes / 60, minutes % 60;
    assert JsRem(minutes, 60) == mins;
    if minutes >= 60 {
      var h := NatToString(hours);
      var s := h + "h " + NatToString(mins) + "m";
      assert FormatTimeDuration(minutes) == s;
      assert s[|h|] == 'h';
    }
  }

  /** `getPriorityColor`: the colour of a known priority, the medium colour for anything else. */
  function GetPriorityColor(priority: string): (color: string)
    ensures priority == "low" ==> color == "#10b981"
    ensures priority == "high" ==> color == "#ef4444"
    ensures priority != "low" && priority != "high" ==> color == "#f59e0b"
  {
    if priority == "low" then "#10b981"
    else if priority == "medium" then "#f59e0b"
    else if priority == "high" then "#ef4444"
    else "#f59e0b"
  }

  /** `categories.find(cat => cat.id === id)`: the first category with that id, if any. */
  function FindCategory(categories: seq<Category>, id: string): (r: Option<Category>)
    ensures r.None? <==> forall c :: c in categories ==> c.id != id
    ensures r.Some? ==> exists k :: (0 <= k < |categories| && categories[k] == r.value && r.value.id == id
      && forall j :: 0 <= j < k ==> categories[j].id != id)
    decreases |categories|
  {
    if categories == [] then None
    else if categories[0].id == id then Some(categories[0])
    else
      var r := FindCategory(categories[1..], id);
      if r.Some? then
        ghost var k :| 0 <= k < |categories[1..]| && categories[1..][k] == r.value && r.value.id == id
          && forall j :: 0 <= j < k ==> categories[1..][j].id != id;
        assert categories[k + 1] == r.value;
        r
      else
        r
  }

  /** `getCategoryColor`: the colour of the first category with the id, else the default indigo. */
  function GetCategoryColor(categories: seq<Category>, categoryId: string): (color: string)
    ensures (forall c :: c in categories ==> c.id != categoryId) ==> color == "#6366f1"
    ensures forall k :: (0 <= k < |categories| && categories[k].id == categoryId
      && (forall j :: 0 <= j < k ==> categories[j].id != categoryId)) ==> color == categories[k].color
  {
    match FindCategory(categories, categoryId)
    case Some(category) => category.color
    case None => "#6366f1"
  }
}
