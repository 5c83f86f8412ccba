/**
 * The `TimeSlot` and `Appointment` records of appointments/models.py and the
 * validation `TimeSlot.clean` and `Appointment.clean` perform. Storing a slot
 * (`TimeSlot.save`, which always runs `full_clean` first) is
 * `Database.SaveTimeSlot`; its effect on the table is `StoreSlot` here.
 */
module AppointmentsModels {
  import opened Wrappers
  import opened Tables
  import opened Units
  import opened AccountsModels
  import opened DoctorsModels

  type SlotId = nat
  type AppointmentId = nat

  datatype TimeSlot = TimeSlot(
    doctor: DoctorId,
    date: Date,
    startTime: TimeOfDay,
    endTime: TimeOfDay,
    isAvailable: bool,
    createdBy: Option<UserId>)

  datatype AppointmentStatus = Pending | Confirmed | Cancelled | Completed

  /** The code stored in the `status` column. */
  function StatusCode(s: AppointmentStatus): (code: string)
    ensures ParseStatus(code) == Some(s)
  {
    match s
    case Pending => "PENDING"
    case Confirmed => "CONFIRMED"
    case Cancelled => "CANCELLED"
    case Completed => "COMPLETED"
  }

  function ParseStatus(code: string): Option<AppointmentStatus> {
    if code == "PENDING" then Some(Pending)
    else if code == "CONFIRMED" then Some(Confirmed)
    else if code == "CANCELLED" then Some(Cancelled)
    else if code == "COMPLETED" then Some(Completed)
    else None
  }

  datatype Appointment = Appointment(
    patient: UserId,
    doctor: DoctorId,
    timeSlot: SlotId,
    status: AppointmentStatus,
    consultationFee: Money,
    notes: Option<string>,
    confirmationSent: bool)

  /** A new appointment: status and `confirmation_sent` at their defaults. */
  function NewAppointment(patient: UserId, doctor: DoctorId, slot: SlotId, fee: Money, notes: Option<string>): (a: Appointment)
    ensures a.status == Pending && StatusCode(a.status) == "PENDING" && !a.confirmationSent
    ensures a.patient == patient && a.doctor == doctor && a.timeSlot == slot && a.consultationFee == fee
  {
    Appointment(patient, doctor, slot, Pending, fee, notes, false)
  }

  /**
   * `other` is one of the rows the overlap query of `TimeSlot.clean` finds for `s`:
   * same doctor, same date, and the two intervals share more than an end point.
   */
  predicate Conflicts(s: TimeSlot, other: TimeSlot) {
    other.doctor == s.doctor && other.date == s.date && other.startTime < s.endTime && other.endTime > s.startTime
  }

  datatype SlotError = EndNotAfterStart | PastDate | OverlapsExisting

  /**
   * `TimeSlot.clean` for the slot `s` whose primary key is `pk` (None while
   * unsaved; the row with that key is excluded from the overlap query), on the
   * day `today`. The checks run in order and the first failure is reported.
   */
  function CleanSlot(slots: Table<TimeSlot>, pk: Option<SlotId>, s: TimeSlot, today: Date): (r: Option<SlotError>)
    ensures r == Some(EndNotAfterStart) <==> s.startTime >= s.endTime
    ensures r == Some(PastDate) <==> s.startTime < s.endTime && s.date < today
    ensures r == Some(OverlapsExisting) <==>
              s.startTime < s.endTime && today <= s.date &&
              exists i :: 0 <= i < |slots| && Some(slots[i].id) != pk && Conflicts(s, slots[i].val)
    ensures r == None <==>
              s.startTime < s.endTime && today <= s.date &&
              forall i :: 0 <= i < |slots| && Some(slots[i].id) != pk ==> !Conflicts(s, slots[i].val)
  {
    if s.startTime >= s.endTime then Some(EndNotAfterStart)
    else if s.date < today then Some(PastDate)
    else if Exists(slots, (o: Row<TimeSlot>) => Some(o.id) != pk && Conflicts(s, o.val)) then Some(OverlapsExisting)
    else None
  }

  /** The slot table after `TimeSlot.save` wrote `s`: an UPDATE of its row, or an INSERT. */
  function StoreSlot(slots: Table<TimeSlot>, pk: Option<SlotId>, s: TimeSlot): (r: Table<TimeSlot>)
    ensures UniqueIds(slots) ==> UniqueIds(r)
  {
    match pk
    case None => Insert(slots, s)
    case Some(id) => if HasId(slots, id) then Update(slots, id, s) else slots + [Row(id, s)]
  }

  /** Every stored slot ends after it starts. */
  predicate WellOrdered(slots: Table<TimeSlot>) {
    forall i :: 0 <= i < |slots| ==> slots[i].val.startTime < slots[i].val.endTime
  }

  /** No two stored slots of one doctor on one date overlap. */
  predicate NonOverlapping(slots: Table<TimeSlot>) {
    forall i, j :: 0 <= i < |slots| && 0 <= j < |slots| && i != j ==> !Conflicts(slots[i].val, slots[j].val)
  }

  /** `unique_together = (doctor, date, start_time, end_time)`. */
  predicate UniqueSlotTimes(slots: Table<TimeSlot>) {
    forall i, j :: 0 <= i < j < |slots| ==>
      var a, b := slots[i].val, slots[j].val;
      !(a.doctor == b.doctor && a.date == b.date && a.startTime == b.startTime && a.endTime == b.endTime)
  }

  predicate SlotsConsistent(slots: Table<TimeSlot>) {
    UniqueIds(slots) && WellOrdered(slots) && NonOverlapping(slots)
  }

  /**
   * Because `save` always cleans first, a successful save keeps the stored
   * slots well ordered and pairwise non-overlapping.
   */
  lemma {:induction false} StoreSlotKeepsConsistent(slots: Table<TimeSlot>, pk: Option<SlotId>, s: TimeSlot, today: Date)
    requires SlotsConsistent(slots)
    requires CleanSlot(slots, pk, s, today) == None
    ensures SlotsConsistent(StoreSlot(slots, pk, s))
  {
    var r := StoreSlot(slots, pk, s);
    // the rows of r: the old rows, with the one keyed pk (if any) replaced by s, and s appended otherwise
    assert forall i :: 0 <= i < |r| ==>
             ((r[i].val == s && Some(r[i].id) == pk) || (r[i].val == s && pk.None? && i == |slots|)
              || (i < |slots| && r[i] == slots[i] && Some(r[i].id) != pk)) by {
      match pk
      case None =>
      case Some(id) =>
        if HasId(slots, id) {
          forall i | 0 <= i < |r|
            ensures (r[i].val == s && Some(r[i].id) == pk) || (i < |slots| && r[i] == slots[i] && Some(r[i].id) != pk)
          {
            if slots[i].id != id { assert r[i] == Row(slots[i].id, slots[i].val); }
          }
        }
    }
  }

  /** A slot that passes `clean` never repeats the (doctor, date, start, end) of another row. */
  lemma CleanSlotImpliesUnique(slots: Table<TimeSlot>, pk: Option<SlotId>, s: TimeSlot, today: Date)
    requires CleanSlot(slots, pk, s, today) == None
    ensures forall i :: 0 <= i < |slots| && Some(slots[i].id) != pk ==>
              var o := slots[i].val;
              !(o.doctor == s.doctor && o.date == s.date && o.startTime == s.startTime && o.endTime == s.endTime)
  {
  }

  /** Stored slots that do not overlap are also unique on (doctor, date, start, end). */
  lemma {:induction false} ConsistentSlotsAreUnique(slots: Table<TimeSlot>)
    requires SlotsConsistent(slots)
    ensures UniqueSlotTimes(slots)
  {
    forall i, j | 0 <= i < j < |slots|
      ensures var a, b := slots[i].val, slots[j].val;
              !(a.doctor == b.doctor && a.date == b.date && a.startTime == b.startTime && a.endTime == b.endTime)
    {
      assert !Conflicts(slots[i].val, slots[j].val);
    }
  }

  /**
   * Re-saving a stored slot unchanged never conflicts with itself: its own row
   * is excluded from the overlap query.
   */
  lemma {:induction false} ResaveDoesNotConflictWithItself(slots: Table<TimeSlot>, k: nat, today: Date)
    requires SlotsConsistent(slots) && k < |slots| && today <= slots[k].val.date
    ensures CleanSlot(slots, Some(slots[k].id), slots[k].val, today) == None
  {
    forall i | 0 <= i < |slots| && Some(slots[i].id) != Some(slots[k].id)
      ensures !Conflicts(slots[k].val, slots[i].val)
    {
      assert i != k;
    }
  }

  /**
   * Slots that only touch (one ends exactly when the other starts) are accepted:
   * if every other slot of the doctor on that date ends by `s.startTime` or
   * starts at or after `s.endTime`, the overlap check passes.
   */
  lemma TouchingSlotsAccepted(slots: Table<TimeSlot>, pk: Option<SlotId>, s: TimeSlot, today: Date)
    requires s.startTime < s.endTime && today <= s.date
    requires forall i :: 0 <= i < |slots| && Some(slots[i].id) != pk && slots[i].val.doctor == s.doctor && slots[i].val.date == s.date ==>
               slots[i].val.endTime <= s.startTime || s.endTime <= slots[i].val.startTime
    ensures CleanSlot(slots, pk, s, today) == None
  {
  }

  datatype AppointmentError = SlotUnavailable | SlotDoesNotExist

  /** `Appointment.clean`: the appointment's slot must be available. */
  function CleanAppointment(slots: Table<TimeSlot>, a: Appointment): (r: Option<AppointmentError>)
    ensures r == None <==> exists i :: 0 <= i < |slots| && slots[i].id == a.timeSlot && Get(slots, a.timeSlot) == Some(slots[i].val) && slots[i].val.isAvailable
    ensures UniqueIds(slots) ==> (r == Some(SlotUnavailable) <==> exists i :: 0 <= i < |slots| && slots[i].id == a.timeSlot && !slots[i].val.isAvailable)
    ensures r == Some(SlotDoesNotExist) <==> !HasId(slots, a.timeSlot)
  {
    match Get(slots, a.timeSlot)
    case None => Some(SlotDoesNotExist)
    case Some(slot) => if slot.isAvailable then None else Some(SlotUnavailable)
  }
}
