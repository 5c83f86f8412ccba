/**
 * The `Review` record of reviews/models.py and the rating summary
 * `_update_doctor_rating` writes onto the doctor: the number of the doctor's
 * reviews and the mean of their ratings, or 0 when there are none.
 */
module ReviewsModels {
  import opened Wrappers
  import opened Tables
  import opened AccountsModels
  import opened DoctorsModels
  import opened AppointmentsModels

  type ReviewId = nat

  datatype Review = Review(
    appointment: AppointmentId,
    patient: UserId,
    doctor: DoctorId,
    rating: int,
    comment: Option<string>,
    isAnonymous: bool)

  /** A review as the form builds it: `is_anonymous` at its default. */
  function NewReview(appointment: AppointmentId, patient: UserId, doctor: DoctorId, rating: int, comment: Option<string>): (r: Review)
    ensures !r.isAnonymous && r.appointment == appointment && r.rating == rating
  {
    Review(appointment, patient, doctor, rating, comment, false)
  }

  /** The rating validators: 1 <= rating <= 5. */
  predicate ValidRating(rating: int) { 1 <= rating <= 5 }

  predicate RatingsValid(reviews: Table<Review>) {
    forall i :: 0 <= i < |reviews| ==> ValidRating(reviews[i].val.rating)
  }

  /** `Review.objects.filter(doctor=doctor)`. */
  function ReviewsOf(reviews: Table<Review>, doctor: DoctorId): Table<Review> {
    Filter(reviews, (r: Row<Review>) => r.val.doctor == doctor)
  }

  function Ratings(rows: Table<Review>): (rs: seq<int>)
    ensures |rs| == |rows| && forall i :: 0 <= i < |rows| ==> rs[i] == rows[i].val.rating
  {
    seq(|rows|, i requires 0 <= i < |rows| => rows[i].val.rating)
  }

  function Sum(xs: seq<int>): int {
    if |xs| == 0 then 0 else xs[0] + Sum(xs[1..])
  }

  /** `Avg(...)` of a queryset, with an empty aggregate (None) replaced by 0. */
  function Mean(xs: seq<int>): real {
    if |xs| == 0 then 0.0 else Sum(xs) as real / |xs| as real
  }

  /** The value `_update_doctor_rating` writes to `doctor.total_reviews`. */
  function TotalReviews(reviews: Table<Review>, doctor: DoctorId): nat {
    |ReviewsOf(reviews, doctor)|
  }

  /** The value `_update_doctor_rating` writes to `doctor.average_rating`. */
  function AverageRating(reviews: Table<Review>, doctor: DoctorId): real {
    Mean(Ratings(ReviewsOf(reviews, doctor)))
  }

  lemma {:induction false} SumBounds(xs: seq<int>, lo: int, hi: int)
    requires forall i :: 0 <= i < |xs| ==> lo <= xs[i] <= hi
    ensures lo * |xs| <= Sum(xs) <= hi * |xs|
  {
    if |xs| > 0 {
      SumBounds(xs[1..], lo, hi);
    }
  }

  /**
   * With valid ratings, a doctor's average is between 1 and 5 when it has
   * reviews, and 0 when it has none.
   */
  lemma AverageRatingInRange(reviews: Table<Review>, doctor: DoctorId)
    requires RatingsValid(reviews)
    ensures TotalReviews(reviews, doctor) == 0 ==> AverageRating(reviews, doctor) == 0.0
    ensures TotalReviews(reviews, doctor) > 0 ==> 1.0 <= AverageRating(reviews, doctor) <= 5.0
  {
    var rows := ReviewsOf(reviews, doctor);
    var rs := Ratings(rows);
    forall i | 0 <= i < |rs| ensures 1 <= rs[i] <= 5 {
      assert rows[i] in reviews;
    }
    SumBounds(rs, 1, 5);
    if |rs| > 0 {
      var n := |rs| as real;
      var s := Sum(rs) as real;
      QuotientBounds(s, n);
    }
  }

  lemma QuotientBounds(s: real, n: real)
    requires 0.0 < n && n <= s <= 5.0 * n
    ensures 1.0 <= s / n <= 5.0
  {
    var q := s / n;
    assert q * n == s;
    assert q * n - 1.0 * n == (q - 1.0) * n;
    assert q * n - 5.0 * n == (q - 5.0) * n;
    MulSign(q - 1.0, n);
    MulSign(5.0 - q, n);
  }

  lemma MulSign(a: real, b: real)
    requires b > 0.0
    ensures a * b >= 0.0 <==> a >= 0.0
  {
    if a < 0.0 { assert a * b < 0.0; }
  }

  /** Summing a list with one more rating adds that rating to the sum. */
  lemma {:induction false} SumAppend(xs: seq<int>, x: int)
    ensures Sum(xs + [x]) == Sum(xs) + x
  {
    if |xs| == 0 {
      assert xs + [x] == [x];
    } else {
      assert (xs + [x])[1..] == xs[1..] + [x];
      SumAppend(xs[1..], x);
    }
  }
}
