/**
 * The constant choice tables and the bulk-creation check of
 * appointments/forms.py: the fixed grid of 15-minute consultation slots,
 * the weekday codes, and `BulkTimeSlotForm.clean`.
 */
module AppointmentsForms {
  import opened Wrappers
  import opened Units
  import opened Text

  /**
   * A time of day written "HH:MM": two digits of hours, a colon, two digits
   * of minutes, reading back as the time itself.
   */
  function Clock(t: TimeOfDay): (s: string)
    requires 0 <= t < 24 * 60
    ensures |s| == 5 && s[2] == ':'
    ensures IsDigit(s[0]) && IsDigit(s[1]) && IsDigit(s[3]) && IsDigit(s[4])
    ensures DigitValue(s[0]) * 10 + DigitValue(s[1]) == t / 60
    ensures DigitValue(s[3]) * 10 + DigitValue(s[4]) == t % 60
  {
    var h, m := t / 60, t % 60;
    [Digit(h / 10), Digit(h % 10), ':', Digit(m / 10), Digit(m % 10)]
  }

  /** The value of a decimal digit character. */
  function DigitValue(c: char): int { c as int - '0' as int }

  /** The character of a decimal digit. */
  function Digit(d: int): (c: char)
    requires 0 <= d < 10
    ensures IsDigit(c) && DigitValue(c) == d
  {
    ('0' as int + d) as char
  }

  /** The label of the grid slot starting at `t`: "HH:MM - HH:MM", its start and the time 15 minutes later. */
  function SlotLabel(t: TimeOfDay): (s: string)
    requires 0 <= t && t + 15 < 24 * 60
    ensures |s| == 13
    ensures s[..5] == Clock(t) && s[5..8] == " - " && s[8..] == Clock(t + 15)
  {
    Clock(t) + " - " + Clock(t + 15)
  }

  /** The 15-minute starts from `from` up to `until`. */
  function Window(from: TimeOfDay, until: TimeOfDay): (r: seq<TimeOfDay>)
    requires from <= until && (until - from) % 15 == 0
    ensures |r| == (until - from) / 15
    ensures forall k :: 0 <= k < |r| ==> r[k] == from + 15 * k
  {
    seq((until - from) / 15, k => from + 15 * k)
  }

  /** The grid as designed: morning 09:00-12:00, afternoon 14:00-16:00, evening 17:00-19:00. */
  function Grid(): (g: seq<TimeOfDay>)
    ensures |g| == 28
    ensures forall k :: 0 <= k < |g| ==> InOpeningHours(g[k])
    ensures forall j, k :: 0 <= j < k < |g| ==> g[j] + 15 <= g[k]
  {
    var m, a, e := Window(9 * 60, 12 * 60), Window(14 * 60, 16 * 60), Window(17 * 60, 19 * 60);
    var g := m + a + e;
    assert forall k :: 0 <= k < |g| ==> g[k] == if k < 12 then 540 + 15 * k else if k < 20 then 840 + 15 * (k - 12) else 1020 + 15 * (k - 20);
    g
  }

  predicate InOpeningHours(t: TimeOfDay) {
    (9 * 60 <= t && t + 15 <= 12 * 60) || (14 * 60 <= t && t + 15 <= 16 * 60) || (17 * 60 <= t && t + 15 <= 19 * 60)
  }

  /**
   * `TIME_CHOICES`: each grid start, in minutes after midnight, with its
   * label. The source spells the 28 pairs out; here they are generated from
   * the three windows, and the `...Literals` lemmas pin entries against the
   * source's literal text.
   */
  function TimeChoices(): (r: seq<(TimeOfDay, string)>)
    ensures |r| == |Grid()|
    ensures forall k :: 0 <= k < |r| ==> r[k].0 == Grid()[k]
  {
    var g := Grid();
    seq(|g|, k requires 0 <= k < |g| => (g[k], SlotLabel(g[k])))
  }

  /** The first and last entry of each window read as in the source. */
  lemma MorningLiterals()
    ensures TimeChoices()[0] == (540, "09:00 - 09:15")
    ensures TimeChoices()[11] == (705, "11:45 - 12:00")
  {
    assert Grid()[0] == 540;
    LabelOf540();
    assert Grid()[11] == 705;
    LabelOf705();
  }

  lemma AfternoonLiterals()
    ensures TimeChoices()[12] == (840, "14:00 - 14:15")
    ensures TimeChoices()[19] == (945, "15:45 - 16:00")
  {
    assert Grid()[12] == 840;
    LabelOf840();
    assert Grid()[19] == 945;
    LabelOf945();
  }

  lemma EveningLiterals()
    ensures TimeChoices()[20] == (1020, "17:00 - 17:15")
    ensures TimeChoices()[27] == (1125, "18:45 - 19:00")
  {
    assert Grid()[20] == 1020;
    LabelOf1020();
    assert Grid()[27] == 1125;
    LabelOf1125();
  }

  lemma LabelOf540()
    ensures SlotLabel(540) == "09:00 - 09:15"
  {
  }

  lemma LabelOf705()
    ensures SlotLabel(705) == "11:45 - 12:00"
  {
  }

  lemma LabelOf840()
    ensures SlotLabel(840) == "14:00 - 14:15"
  {
  }

  lemma LabelOf945()
    ensures SlotLabel(945) == "15:45 - 16:00"
  {
  }

  lemma LabelOf1020()
    ensures SlotLabel(1020) == "17:00 - 17:15"
  {
  }

  lemma LabelOf1125()
    ensures SlotLabel(1125) == "18:45 - 19:00"
  {
  }

  /**
   * There are 28 entries, every one inside opening hours, labelled with its
   * own start and the end 15 minutes later (so the label starts with its own
   * time), and the entries are strictly increasing with no two intervals
   * overlapping.
   */
  lemma TimeChoicesWellFormed()
    ensures |TimeChoices()| == 28
    ensures forall k :: 0 <= k < |TimeChoices()| ==> InOpeningHours(TimeChoices()[k].0)
    ensures forall k :: 0 <= k < |TimeChoices()| ==> TimeChoices()[k].1 == SlotLabel(TimeChoices()[k].0)
    ensures forall k :: 0 <= k < |TimeChoices()| ==> TimeChoices()[k].1[..5] == Clock(TimeChoices()[k].0)
    ensures forall j, k :: 0 <= j < k < |TimeChoices()| ==> TimeChoices()[j].0 + 15 <= TimeChoices()[k].0
  {
  }

  /** `WEEKDAY_CHOICES`: Python's weekday numbering. */
  const WeekdayChoices: seq<(int, string)> := [
    (0, "Monday"), (1, "Tuesday"), (2, "Wednesday"), (3, "Thursday"),
    (4, "Friday"), (5, "Saturday"), (6, "Sunday")
  ]

  /** The codes are exactly 0..6, each at its own position, Monday first and Sunday last. */
  lemma WeekdayCodes()
    ensures |WeekdayChoices| == 7
    ensures forall k :: 0 <= k < 7 ==> WeekdayChoices[k].0 == k
    ensures forall c :: c in WeekdayChoices ==> 0 <= c.0 < 7
    ensures WeekdayChoices[0].1 == "Monday" && WeekdayChoices[6].1 == "Sunday"
  {
  }

  /** `BulkTimeSlotForm.clean`: a range whose start lies after its end is refused. */
  function CleanBulkDates(startDate: Option<Date>, endDate: Option<Date>): (r: Cleaned<(Option<Date>, Option<Date>)>)
    ensures r.Invalid? <==> startDate.Some? && endDate.Some? && startDate.value > endDate.value
    ensures r.Invalid? ==> r.message == "End date must be after start date."
    ensures r.Valid? ==> r.value == (startDate, endDate)
  {
    if startDate.Some? && endDate.Some? && startDate.value > endDate.value
    then Invalid("End date must be after start date.")
    else Valid((startDate, endDate))
  }

  /** A one-day range is accepted. */
  lemma SameDayRangeAccepted(d: Date)
    ensures CleanBulkDates(Some(d), Some(d)).Valid?
  {
  }
}
