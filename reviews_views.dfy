/**
 * `submit_review` of reviews/views.py: a signed-in patient reviews one of
 * their own completed appointments, once. The checks run in a fixed order,
 * each with its own response, and a valid POST saves the review, which in
 * turn refreshes the doctor's rating summary.
 */
module ReviewsViews {
  import opened Wrappers
  import opened Tables
  import opened AccountsModels
  import opened DoctorsModels
  import opened AppointmentsModels
  import opened ReviewsModels
  import opened Database

  /** The responses of `submit_review`. */
  datatype ReviewOutcome =
    | ToLogin                             // `@login_required`
    | NotFound                            // `get_object_or_404`
    | Forbidden                           // not the appointment's patient
    | NotCompleted                        // redirect to the home page
    | AlreadyReviewed(doctor: DoctorId)   // redirect to the doctor's page
    | Submitted(doctor: DoctorId)         // review saved, redirect to the doctor's page
    | ShowForm                            // GET, or a POST with an invalid form

  /** `ReviewForm.is_valid()`: the rating is required and must lie in 1..5. */
  predicate ReviewFormValid(rating: Option<int>) {
    rating.Some? && ValidRating(rating.value)
  }

  /** `hasattr(appointment, 'review')`: a review is attached to the appointment. */
  predicate HasReview(reviews: Table<Review>, appointment: AppointmentId) {
    exists i :: 0 <= i < |reviews| && reviews[i].val.appointment == appointment
  }

  /** The exception raised by the status comparison: `Appointment` has no `AppointmentStatus` attribute. */
  const NoStatusAttribute := "AttributeError"

  /**
   * The view as written: the second check reads `Appointment.AppointmentStatus`,
   * which the model class does not define, so every request that passes the
   * ownership check raises before the status is even compared.
   */
  function ReviewDecisionAsWritten(appointments: Table<Appointment>, reviews: Table<Review>, requester: Requester,
                                   appointment: AppointmentId, isPost: bool, rating: Option<int>): (r: Raising<ReviewOutcome>)
    ensures r.Raised? <==> requester.SignedIn? && HasId(appointments, appointment) &&
                           Get(appointments, appointment).value.patient == requester.id
  {
    if !requester.SignedIn? then Returned(ToLogin)
    else match Get(appointments, appointment)
      case None => Returned(NotFound)
      case Some(a) =>
        if a.patient != requester.id then Returned(Forbidden)
        else Raised(NoStatusAttribute)
  }

  /** As written, no request ever reaches the form: no review can be submitted. */
  lemma AsWrittenNeverSubmits(appointments: Table<Appointment>, reviews: Table<Review>, requester: Requester,
                              appointment: AppointmentId, isPost: bool, rating: Option<int>)
    ensures !(ReviewDecisionAsWritten(appointments, reviews, requester, appointment, isPost, rating).Returned? &&
              ReviewDecisionAsWritten(appointments, reviews, requester, appointment, isPost, rating).value.Submitted?)
  {
  }

  /** A concrete case: the patient of a completed, unreviewed appointment posting a valid rating gets an exception. */
  lemma AsWrittenRejectsTheOwner()
    ensures var u := DefaultUser("pat@example.com", "pat@example.com");
            var a := Appointment(7, 3, 11, Completed, 5000, None, false);
            ReviewDecisionAsWritten([Row(1, a)], [], SignedIn(7, u), 1, true, Some(5)) == Raised(NoStatusAttribute)
  {
  }

  /**
   * The view with the evidently intended status check: the appointment's
   * status must be COMPLETED. The checks keep their order.
   */
  function ReviewDecision(appointments: Table<Appointment>, reviews: Table<Review>, requester: Requester,
                          appointment: AppointmentId, isPost: bool, rating: Option<int>): (r: ReviewOutcome)
    ensures r == ToLogin <==> !requester.SignedIn?
    ensures r == NotFound <==> requester.SignedIn? && !HasId(appointments, appointment)
    ensures r == Forbidden <==> (requester.SignedIn? && HasId(appointments, appointment) &&
                                 Get(appointments, appointment).value.patient != requester.id)
    ensures r == NotCompleted <==> (requester.SignedIn? && HasId(appointments, appointment) &&
                                    var a := Get(appointments, appointment).value;
                                    a.patient == requester.id && a.status != Completed)
    ensures r.AlreadyReviewed? <==> (requester.SignedIn? && HasId(appointments, appointment) &&
                                     var a := Get(appointments, appointment).value;
                                     a.patient == requester.id && a.status == Completed && HasReview(reviews, appointment))
    ensures r.Submitted? <==> (requester.SignedIn? && HasId(appointments, appointment) &&
                               var a := Get(appointments, appointment).value;
                               a.patient == requester.id && a.status == Completed &&
                               !HasReview(reviews, appointment) && isPost && ReviewFormValid(rating))
    ensures (r.Submitted? || r.AlreadyReviewed?) ==> r.doctor == Get(appointments, appointment).value.doctor
  {
    if !requester.SignedIn? then ToLogin
    else match Get(appointments, appointment)
      case None => NotFound
      case Some(a) =>
        if a.patient != requester.id then Forbidden
        else if a.status != Completed then NotCompleted
        else if HasReview(reviews, appointment) then AlreadyReviewed(a.doctor)
        else if isPost && ReviewFormValid(rating) then Submitted(a.doctor)
        else ShowForm
  }

  /** The corrected view answers exactly as written wherever the written one does not raise. */
  lemma CorrectionOnlyChangesTheRaise(appointments: Table<Appointment>, reviews: Table<Review>, requester: Requester,
                                      appointment: AppointmentId, isPost: bool, rating: Option<int>)
    ensures var w := ReviewDecisionAsWritten(appointments, reviews, requester, appointment, isPost, rating);
            w.Returned? ==> w.value == ReviewDecision(appointments, reviews, requester, appointment, isPost, rating)
  {
  }

  /** The form POST handled by the corrected view: the review is stored with rating and comment as posted. */
  method SubmitReview(db: Database, requester: Requester, appointment: AppointmentId, isPost: bool,
                      rating: Option<int>, comment: Option<string>) returns (outcome: ReviewOutcome)
    requires db.Valid()
    modifies db`reviews, db`doctors
    ensures db.Valid()
    ensures outcome == ReviewDecision(db.appointments, old(db.reviews), requester, appointment, isPost, rating)
    ensures outcome.Submitted? ==>
              var stored := Review(appointment, requester.id, outcome.doctor, rating.value, comment, false);
              && db.reviews == old(db.reviews) + [Row(NextId(old(db.reviews)), stored)]
              && db.doctors == WithRating(old(db.doctors), db.reviews, outcome.doctor)
    ensures !outcome.Submitted? ==> db.reviews == old(db.reviews) && db.doctors == old(db.doctors)
  {
    outcome := ReviewDecision(db.appointments, db.reviews, requester, appointment, isPost, rating);
    if outcome.Submitted? {
      var a := Get(db.appointments, appointment).value;
      var review := NewReview(appointment, requester.id, a.doctor, rating.value, comment);
      var r := db.SaveReview(None, review);
    }
  }

  /** A second submission for the same appointment is answered with "already reviewed". */
  lemma SubmittedOnlyOnce(appointments: Table<Appointment>, reviews: Table<Review>, requester: Requester,
                          appointment: AppointmentId, rating: Option<int>, review: Review, id: nat)
    requires review.appointment == appointment
    ensures ReviewDecision(appointments, reviews, requester, appointment, true, rating).Submitted? ==>
              ReviewDecision(appointments, reviews + [Row(id, review)], requester, appointment, true, rating).AlreadyReviewed?
  {
    assert (reviews + [Row(id, review)])[|reviews|].val.appointment == appointment;
  }
}
