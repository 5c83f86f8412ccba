/**
 * `home` of core/views.py: the landing page's doctor search. Active doctors
 * are narrowed by a case-insensitive text query over the doctor's names,
 * specialty and bio and by a specialty id, and the first six are shown next
 * to the number of all active doctors.
 */
module CoreViews {
  import opened Wrappers
  import opened Tables
  import opened Text
  import opened AccountsModels
  import opened DoctorsModels

  /** The `specialty` query parameter: absent or empty, a number, or text the id lookup cannot convert. */
  datatype SpecialtyParam = NoSpecialty | SpecialtyNumber(id: int) | NotANumber

  /** The page's context: the previewed doctors and `total_doctors`. */
  datatype HomePage = HomePage(doctors: Table<Doctor>, totalDoctors: nat)

  /** How many doctors the preview shows. */
  const PreviewSize := 6

  /** The four `__icontains` lookups of the search, joined with OR; a missing joined row matches nothing. */
  predicate MatchesQuery(users: Table<User>, specialties: Table<Specialty>, d: Row<Doctor>, query: string) {
    (match Get(users, d.val.user)
     case Some(u) => ContainsIgnoreCase(u.firstName, query) || ContainsIgnoreCase(u.lastName, query)
     case None => false)
    || (match Get(specialties, d.val.specialty)
        case Some(s) => ContainsIgnoreCase(s.name, query)
        case None => false)
    || ContainsIgnoreCase(d.val.bio, query)
  }

  predicate Active(d: Row<Doctor>) { d.val.isActive }

  /** One condition for everything the view's chained filters ask of a shown doctor. */
  predicate Selected(users: Table<User>, specialties: Table<Specialty>, query: string, specialty: SpecialtyParam, d: Row<Doctor>) {
    && d.val.isActive
    && (query == "" || MatchesQuery(users, specialties, d, query))
    && (specialty.SpecialtyNumber? ==> d.val.specialty == specialty.id)
  }

  /** `doctors[:6]`. */
  function Preview(t: Table<Doctor>): (r: Table<Doctor>)
    ensures |r| == if |t| < PreviewSize then |t| else PreviewSize
    ensures r == t[..|r|]
  {
    if |t| < PreviewSize then t else t[..PreviewSize]
  }

  /** `home`: the filters applied one after another, then the preview; a non-numeric specialty raises. */
  function Home(doctors: Table<Doctor>, users: Table<User>, specialties: Table<Specialty>,
                query: string, specialty: SpecialtyParam): (r: Raising<HomePage>)
    ensures r.Raised? <==> specialty.NotANumber?
    ensures r.Returned? ==> |r.value.doctors| <= PreviewSize
    ensures r.Returned? ==> r.value.totalDoctors == |Filter(doctors, Active)|
    ensures r.Returned? ==> forall x :: x in r.value.doctors ==> x in doctors && Selected(users, specialties, query, specialty, x)
  {
    if specialty.NotANumber? then Raised("ValueError")
    else
      var active := Filter(doctors, Active);
      var searched := if query != "" then Filter(active, (d: Row<Doctor>) => MatchesQuery(users, specialties, d, query)) else active;
      var narrowed := if specialty.SpecialtyNumber?
                      then Filter(searched, (d: Row<Doctor>) => d.val.specialty == specialty.id) else searched;
      var shown := Preview(narrowed);
      assert forall x :: x in shown ==> x in narrowed;
      Returned(HomePage(shown, |active|))
  }

  /** The preview is exactly the first six doctors, in table order, that meet every condition at once. */
  lemma HomeShowsFirstSelected(doctors: Table<Doctor>, users: Table<User>, specialties: Table<Specialty>,
                               query: string, specialty: SpecialtyParam)
    requires !specialty.NotANumber?
    ensures Home(doctors, users, specialties, query, specialty).value.doctors ==
            Preview(Filter(doctors, (d: Row<Doctor>) => Selected(users, specialties, query, specialty, d)))
  {
    var sel := (d: Row<Doctor>) => Selected(users, specialties, query, specialty, d);
    var match_ := (d: Row<Doctor>) => MatchesQuery(users, specialties, d, query);
    var searchedP := (d: Row<Doctor>) => d.val.isActive && (query == "" || MatchesQuery(users, specialties, d, query));
    if query != "" {
      FilterCompose(doctors, Active, match_, searchedP);
    } else {
      FilterCompose(doctors, Active, (d: Row<Doctor>) => true, searchedP);
      FilterAll(Filter(doctors, Active));
    }
    var searched := Filter(doctors, searchedP);
    if specialty.SpecialtyNumber? {
      FilterCompose(doctors, searchedP, (d: Row<Doctor>) => d.val.specialty == specialty.id, sel);
    } else {
      FilterCompose(doctors, searchedP, (d: Row<Doctor>) => true, sel);
      FilterAll(searched);
    }
  }

  /** A filter that keeps everything is the identity. */
  lemma {:induction false} FilterAll(t: Table<Doctor>)
    ensures Filter(t, (d: Row<Doctor>) => true) == t
  {
    if |t| > 0 {
      FilterAll(t[1..]);
      assert t == [t[0]] + t[1..];
    }
  }

  /** Fewer than six selected doctors are all shown; the count never exceeds the active doctors. */
  lemma HomeShowsAllWhenFew(doctors: Table<Doctor>, users: Table<User>, specialties: Table<Specialty>,
                            query: string, specialty: SpecialtyParam, x: Row<Doctor>)
    requires !specialty.NotANumber?
    requires x in doctors && Selected(users, specialties, query, specialty, x)
    requires |Filter(doctors, (d: Row<Doctor>) => Selected(users, specialties, query, specialty, d))| < PreviewSize
    ensures x in Home(doctors, users, specialties, query, specialty).value.doctors
    ensures |Home(doctors, users, specialties, query, specialty).value.doctors| <= Home(doctors, users, specialties, query, specialty).value.totalDoctors
  {
    HomeShowsFirstSelected(doctors, users, specialties, query, specialty);
    var sel := (d: Row<Doctor>) => Selected(users, specialties, query, specialty, d);
    FilterMonotone(doctors, sel, Active);
  }

  /** A stricter condition keeps no more rows. */
  lemma {:induction false} FilterMonotone(t: Table<Doctor>, p: Row<Doctor> -> bool, q: Row<Doctor> -> bool)
    requires forall x :: p(x) ==> q(x)
    ensures |Filter(t, p)| <= |Filter(t, q)|
  {
    if |t| > 0 {
      FilterMonotone(t[1..], p, q);
    }
  }
}
