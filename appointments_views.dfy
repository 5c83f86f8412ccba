/**
 * `book_view` of appointments/views.py: the bookable slots of one doctor,
 * available and not in the past, ordered by date and start time, narrowed by
 * the optional inclusive `start` and `end` dates of the query string.
 */
module AppointmentsViews {
  import opened Wrappers
  import opened Tables
  import opened Units
  import opened DoctorsModels
  import opened AppointmentsModels

  /** `order_by("date", "start_time")`: a comes no later than b. */
  predicate NoLater(a: Row<TimeSlot>, b: Row<TimeSlot>) {
    a.val.date < b.val.date || (a.val.date == b.val.date && a.val.startTime <= b.val.startTime)
  }

  predicate SortedByTime(s: Table<TimeSlot>) {
    forall i, j :: 0 <= i < j < |s| ==> NoLater(s[i], s[j])
  }

  /** Inserting one slot into a sorted listing. */
  function InsertByTime(x: Row<TimeSlot>, s: Table<TimeSlot>): (r: Table<TimeSlot>)
    requires SortedByTime(s)
    ensures SortedByTime(r)
    ensures multiset(r) == multiset(s) + multiset{x}
  {
    if |s| == 0 then [x]
    else if NoLater(x, s[0]) then [x] + s
    else
      var rest := InsertByTime(x, s[1..]);
      assert s == [s[0]] + s[1..];
      assert forall y :: y in rest ==> NoLater(s[0], y) by {
        forall y | y in rest ensures NoLater(s[0], y) {
          assert y in multiset(rest);
          if y != x {
            assert y in multiset(s[1..]);
            var k :| 0 <= k < |s[1..]| && s[1..][k] == y;
            assert s[k + 1] == y;
          }
        }
      }
      [s[0]] + rest
  }

  /** The listing ordered by date, then start time. */
  function SortByTime(s: Table<TimeSlot>): (r: Table<TimeSlot>)
    ensures SortedByTime(r)
    ensures multiset(r) == multiset(s)
  {
    if |s| == 0 then []
    else
      assert s == [s[0]] + s[1..];
      InsertByTime(s[0], SortByTime(s[1..]))
  }

  /** Filtering a sorted listing keeps it sorted. */
  lemma {:induction false} FilterKeepsSorted(s: Table<TimeSlot>, p: Row<TimeSlot> -> bool)
    requires SortedByTime(s)
    ensures SortedByTime(Filter(s, p))
  {
    if |s| > 0 {
      FilterKeepsSorted(s[1..], p);
      var rest := Filter(s[1..], p);
      forall y | y in rest ensures NoLater(s[0], y) {
        var k :| 0 <= k < |s[1..]| && s[1..][k] == y;
        assert s[k + 1] == y;
      }
    }
  }

  /** The base query: this doctor's available slots dated today or later. */
  predicate Bookable(x: Row<TimeSlot>, doctor: DoctorId, today: Date) {
    x.val.doctor == doctor && x.val.isAvailable && x.val.date >= today
  }

  /** The optional inclusive bounds `start` and `end`. */
  predicate WithinBounds(x: Row<TimeSlot>, start: Option<Date>, end: Option<Date>) {
    (start.Some? ==> x.val.date >= start.value) && (end.Some? ==> x.val.date <= end.value)
  }

  /**
   * `book_view`: None is the 404 for an unknown doctor; otherwise the listed
   * slots are exactly the doctor's available slots from today on that fall
   * within the bounds, each once, sorted by date and start time.
   */
  function BookView(doctors: Table<Doctor>, slots: Table<TimeSlot>, doctor: DoctorId, today: Date,
                    start: Option<Date>, end: Option<Date>): (r: Option<Table<TimeSlot>>)
    ensures r.None? <==> !HasId(doctors, doctor)
    ensures r.Some? ==> SortedByTime(r.value)
    ensures r.Some? ==> forall x :: x in r.value <==> x in slots && Bookable(x, doctor, today) && WithinBounds(x, start, end)
    ensures r.Some? ==> |r.value| <= |slots|
    ensures r.Some? ==>
              multiset(r.value) == multiset(Filter(slots, (x: Row<TimeSlot>) => Bookable(x, doctor, today) && WithinBounds(x, start, end)))
  {
    if !HasId(doctors, doctor) then None
    else
      var base := Filter(slots, (x: Row<TimeSlot>) => Bookable(x, doctor, today));
      var ordered := SortByTime(base);
      assert forall x :: x in ordered <==> x in multiset(base);
      assert |ordered| == |base| by { assert |multiset(ordered)| == |multiset(base)|; }
      var bounded := Filter(ordered, (x: Row<TimeSlot>) => WithinBounds(x, start, end));
      FilterKeepsSorted(ordered, (x: Row<TimeSlot>) => WithinBounds(x, start, end));
      FilterSameMultiset(ordered, base, (x: Row<TimeSlot>) => WithinBounds(x, start, end));
      FilterCompose(slots, (x: Row<TimeSlot>) => Bookable(x, doctor, today), (x: Row<TimeSlot>) => WithinBounds(x, start, end),
                    (x: Row<TimeSlot>) => Bookable(x, doctor, today) && WithinBounds(x, start, end));
      Some(bounded)
  }

  /** Adding bounds only ever removes slots from the unbounded listing. */
  lemma BoundsOnlyRemove(doctors: Table<Doctor>, slots: Table<TimeSlot>, doctor: DoctorId, today: Date,
                         start: Option<Date>, end: Option<Date>)
    requires HasId(doctors, doctor)
    ensures forall x :: x in BookView(doctors, slots, doctor, today, start, end).value ==>
              x in BookView(doctors, slots, doctor, today, None, None).value
  {
  }
}
