/**
 * The application's database: one table per model, in primary-key order, and
 * the table constraints Django and the database enforce (unique keys,
 * one-to-one fields, PROTECT). The model-level writes that carry their own
 * rules are methods here: `TimeSlot.save`, `Review.save` and `Review.delete`
 * with the rating update, the one-to-one slot of a new appointment, and the
 * PROTECT check on deleting a specialty.
 */
module Database {
  import opened Wrappers
  import opened Tables
  import opened Units
  import opened AccountsModels
  import opened DoctorsModels
  import opened AppointmentsModels
  import opened PaymentsModels
  import opened ReviewsModels

  /** `username` is unique among users. */
  predicate UniqueUsernames(users: Table<User>) {
    forall i, j :: 0 <= i < j < |users| ==> users[i].val.username != users[j].val.username
  }

  /** `time_slot` is a one-to-one field: a slot has at most one appointment. */
  predicate OneAppointmentPerSlot(appointments: Table<Appointment>) {
    forall i, j :: 0 <= i < j < |appointments| ==> appointments[i].val.timeSlot != appointments[j].val.timeSlot
  }

  /** `appointment` is a one-to-one field: an appointment has at most one review. */
  predicate OneReviewPerAppointment(reviews: Table<Review>) {
    forall i, j :: 0 <= i < j < |reviews| ==> reviews[i].val.appointment != reviews[j].val.appointment
  }

  /** Rewriting one user's row keeps usernames unique as long as its username stays. */
  lemma UpdateKeepsUsernames(users: Table<User>, id: UserId, u: User)
    requires UniqueIds(users) && UniqueUsernames(users)
    requires HasId(users, id) && Get(users, id).value.username == u.username
    ensures UniqueIds(Update(users, id, u)) && UniqueUsernames(Update(users, id, u))
  {
  }

  /** A doctor's stored summary agrees with its reviews. */
  predicate RatingUpToDate(doctors: Table<Doctor>, reviews: Table<Review>, doctor: DoctorId) {
    forall i :: 0 <= i < |doctors| && doctors[i].id == doctor ==>
      doctors[i].val.totalReviews == TotalReviews(reviews, doctor) &&
      doctors[i].val.averageRating == AverageRating(reviews, doctor)
  }

  /** The doctor table after `_update_doctor_rating` for `doctor`: only that row's two summary fields change. */
  function WithRating(doctors: Table<Doctor>, reviews: Table<Review>, doctor: DoctorId): (r: Table<Doctor>)
    ensures |r| == |doctors|
    ensures forall i :: 0 <= i < |doctors| ==> r[i].id == doctors[i].id
    ensures forall i :: 0 <= i < |doctors| && doctors[i].id != doctor ==> r[i] == doctors[i]
    ensures forall i :: 0 <= i < |doctors| && doctors[i].id == doctor ==>
              r[i].val == doctors[i].val.(totalReviews := TotalReviews(reviews, doctor),
                                          averageRating := AverageRating(reviews, doctor))
    ensures RatingUpToDate(r, reviews, doctor)
  {
    seq(|doctors|, i requires 0 <= i < |doctors| =>
      if doctors[i].id == doctor
      then Row(doctor, doctors[i].val.(totalReviews := TotalReviews(reviews, doctor),
                                       averageRating := AverageRating(reviews, doctor)))
      else doctors[i])
  }

  datatype SaveError = IntegrityError | ProtectedError

  class Database {
    var users: Table<User>
    var otps: Table<Otp>
    var specialties: Table<Specialty>
    var doctors: Table<Doctor>
    var slots: Table<TimeSlot>
    var appointments: Table<Appointment>
    var payments: Table<Payment>
    var transactions: Table<WalletTransaction>
    var reviews: Table<Review>

    /** The constraints every table keeps. */
    ghost predicate Valid()
      reads this
    {
      && UniqueIds(users) && UniqueUsernames(users)
      && UniqueIds(otps)
      && UniqueIds(specialties)
      && UniqueIds(doctors) && UniqueLicenses(doctors) && OneProfilePerUser(doctors)
      && SpecialtiesReferenced(doctors, specialties)
      && SlotsConsistent(slots)
      && UniqueIds(appointments) && OneAppointmentPerSlot(appointments)
      && UniqueIds(payments)
      && UniqueIds(transactions)
      && UniqueIds(reviews) && OneReviewPerAppointment(reviews)
    }

    constructor ()
      ensures Valid()
      ensures users == [] && otps == [] && specialties == [] && doctors == [] && slots == []
      ensures appointments == [] && payments == [] && transactions == [] && reviews == []
    {
      users, otps, specialties, doctors, slots := [], [], [], [], [];
      appointments, payments, transactions, reviews := [], [], [], [];
    }

    /**
     * `TimeSlot.save`: `full_clean` first, so nothing is written unless
     * `clean` accepts the slot; then an UPDATE of its row or an INSERT.
     */
    method SaveTimeSlot(pk: Option<SlotId>, s: TimeSlot, today: Date) returns (r: Option<SlotError>)
      requires Valid()
      modifies this`slots
      ensures Valid()
      ensures r == CleanSlot(old(slots), pk, s, today)
      ensures slots == if r.None? then StoreSlot(old(slots), pk, s) else old(slots)
    {
      r := CleanSlot(slots, pk, s, today);
      if r.None? {
        StoreSlotKeepsConsistent(slots, pk, s, today);
        slots := StoreSlot(slots, pk, s);
      }
    }

    /**
     * Inserting a new appointment (status PENDING, confirmation not sent) for
     * a slot; the one-to-one `time_slot` column refuses a second appointment
     * on the same slot.
     */
    method CreateAppointment(patient: UserId, doctor: DoctorId, slot: SlotId, fee: Money, notes: Option<string>)
      returns (r: Result<AppointmentId, SaveError>)
      requires Valid()
      modifies this`appointments
      ensures Valid()
      ensures r.Err? <==> exists i :: 0 <= i < |old(appointments)| && old(appointments)[i].val.timeSlot == slot
      ensures r.Err? ==> appointments == old(appointments)
      ensures r.Ok? ==> (appointments == Insert(old(appointments), NewAppointment(patient, doctor, slot, fee, notes))
                         && r.value == NextId(old(appointments)))
    {
      if Exists(appointments, (a: Row<Appointment>) => a.val.timeSlot == slot) {
        r := Err(IntegrityError);
      } else {
        var a := NewAppointment(patient, doctor, slot, fee, notes);
        r := Ok(NextId(appointments));
        appointments := Insert(appointments, a);
      }
    }

    /**
     * `Review.save`: patient and doctor are overwritten with the
     * appointment's, the row is written (the one-to-one `appointment` column
     * refuses a second review of one appointment), then the doctor's
     * `total_reviews` and `average_rating` are recomputed.
     */
    method SaveReview(pk: Option<ReviewId>, review: Review) returns (r: Result<ReviewId, SaveError>)
      requires Valid()
      requires HasId(appointments, review.appointment)
      modifies this`reviews, this`doctors
      ensures Valid()
      ensures var appt := Get(old(appointments), review.appointment).value;
              var stored := review.(patient := appt.patient, doctor := appt.doctor);
              var id := if pk.Some? then pk.value else NextId(old(reviews));
              if exists i :: 0 <= i < |old(reviews)| && old(reviews)[i].id != id && old(reviews)[i].val.appointment == review.appointment
              then r == Err(IntegrityError) && reviews == old(reviews) && doctors == old(doctors)
              else r == Ok(id) && Get(reviews, id) == Some(stored)
                   && reviews == (if HasId(old(reviews), id) then Update(old(reviews), id, stored) else old(reviews) + [Row(id, stored)])
                   && doctors == WithRating(old(doctors), reviews, appt.doctor)
    {
      var appt := Get(appointments, review.appointment).value;
      var stored := review.(patient := appt.patient, doctor := appt.doctor);
      var id := if pk.Some? then pk.value else NextId(reviews);
      if Exists(reviews, (x: Row<Review>) => x.id != id && x.val.appointment == review.appointment) {
        r := Err(IntegrityError);
        return;
      }
      if HasId(reviews, id) {
        var k :| 0 <= k < |reviews| && reviews[k].id == id;
        reviews := Update(reviews, id, stored);
        assert reviews[k] == Row(id, stored);
      } else {
        reviews := reviews + [Row(id, stored)];
        assert reviews[|reviews| - 1] == Row(id, stored);
      }
      r := Ok(id);
      UpdateDoctorRating(appt.doctor);
    }

    /** `_update_doctor_rating`: recompute the doctor's review count and mean rating. */
    method UpdateDoctorRating(doctor: DoctorId)
      requires UniqueIds(doctors) && UniqueLicenses(doctors) && OneProfilePerUser(doctors)
      requires SpecialtiesReferenced(doctors, specialties)
      modifies this`doctors
      ensures doctors == WithRating(old(doctors), reviews, doctor)
      ensures UniqueIds(doctors) && UniqueLicenses(doctors) && OneProfilePerUser(doctors)
      ensures SpecialtiesReferenced(doctors, specialties)
    {
      doctors := WithRating(doctors, reviews, doctor);
    }

    /** `Review.delete`: the row goes, then the doctor's summary is recomputed. */
    method DeleteReview(id: ReviewId)
      requires Valid()
      requires HasId(reviews, id)
      modifies this`reviews, this`doctors
      ensures Valid()
      ensures reviews == Delete(old(reviews), id)
      ensures doctors == WithRating(old(doctors), reviews, Get(old(reviews), id).value.doctor)
    {
      var doctor := Get(reviews, id).value.doctor;
      reviews := Delete(reviews, id);
      UpdateDoctorRating(doctor);
    }

    /** `Specialty.delete` under PROTECT: refused while any doctor references the specialty. */
    method DeleteSpecialty(id: SpecialtyId) returns (r: Option<SaveError>)
      requires Valid()
      modifies this`specialties
      ensures Valid()
      ensures r.Some? <==> HasDoctors(doctors, id)
      ensures specialties == if r.Some? then old(specialties) else Delete(old(specialties), id)
    {
      if HasDoctors(doctors, id) {
        r := Some(ProtectedError);
      } else {
        r := None;
        specialties := Delete(specialties, id);
      }
    }
  }
}
