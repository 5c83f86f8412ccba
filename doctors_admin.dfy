/**
 * The admin pages of doctors/admin.py: who may add, change and delete
 * doctors, how a doctor created from the admin is saved, the per-specialty
 * doctor count, and the guarded single and bulk deletion of specialties.
 */
module DoctorsAdmin {
  import opened Wrappers
  import opened Tables
  import opened AccountsModels
  import opened DoctorsModels
  import opened Database
  import opened DoctorsServices
  import opened DoctorsForms

  /** The three permission hooks of `DoctorAdmin`. */
  datatype DoctorAdminAction = AddDoctor | ChangeDoctor | DeleteDoctor

  /** `has_add_permission`, `has_change_permission`, `has_delete_permission` all defer to the service. */
  function DoctorAdminPermission(user: Requester, action: DoctorAdminAction): (b: bool)
    ensures b <==> user.SignedIn? && (user.user.isSuperuser || user.user.userType == AdminType)
  {
    CanUserManageDoctors(user)
  }

  /** The permission does not depend on which hook asks. */
  lemma DoctorAdminPermissionUniform(user: Requester, a: DoctorAdminAction, b: DoctorAdminAction)
    ensures DoctorAdminPermission(user, a) == DoctorAdminPermission(user, b)
  {
  }

  /** How `DoctorAdmin.save_model` saves: through the form with a creator, or as a plain model save. */
  datatype AdminSave = FormSave(createdBy: Requester) | ModelSave

  function DoctorAdminSave(request: Requester, change: bool): (s: AdminSave)
    ensures s.FormSave? <==> !change
    ensures s.FormSave? ==> s.createdBy == request
  {
    if !change then FormSave(request) else ModelSave
  }

  /** A doctor added from the admin reaches the form's create branch, which runs the permission check. */
  lemma AdminAddTakesCreatePath(request: Requester)
    ensures DoctorAdminSave(request, false).FormSave?
    ensures DoctorSavePath(None, Some(DoctorAdminSave(request, false).createdBy)) == CreatePath
  {
  }

  /** `doctor_count`: the specialty's doctors, or 0 for an unsaved specialty. */
  function DoctorCount(doctors: Table<Doctor>, pk: Option<SpecialtyId>): (n: nat)
    ensures n <= |doctors|
    ensures pk.None? ==> n == 0
    ensures pk.Some? ==> (n > 0 <==> HasDoctors(doctors, pk.value))
    ensures pk.Some? ==> n == |Filter(doctors, (d: Row<Doctor>) => d.val.specialty == pk.value)|
  {
    if pk.Some? then Count(doctors, (d: Row<Doctor>) => d.val.specialty == pk.value) else 0
  }

  /** `SpecialtyAdmin.has_delete_permission`: a specialty with doctors can never be deleted. */
  function SpecialtyDeletePermission(doctors: Table<Doctor>, obj: Option<SpecialtyId>, basePermission: bool): (b: bool)
    ensures b <==> basePermission && (obj.None? || !HasDoctors(doctors, obj.value))
  {
    if obj.Some? && HasDoctors(doctors, obj.value) then false else basePermission
  }

  /**
   * `SpecialtyAdmin.delete_model`: refused, with the number of doctors for
   * the error message, while the specialty has doctors; otherwise deleted.
   */
  method DeleteModel(db: Database, id: SpecialtyId) returns (refused: Option<nat>)
    requires db.Valid()
    modifies db`specialties
    ensures db.Valid()
    ensures refused.Some? <==> HasDoctors(db.doctors, id)
    ensures refused.Some? ==> refused.value == DoctorCount(db.doctors, Some(id)) && refused.value > 0
    ensures db.specialties == if refused.Some? then old(db.specialties) else Delete(old(db.specialties), id)
  {
    if HasDoctors(db.doctors, id) {
      refused := Some(DoctorCount(db.doctors, Some(id)));
    } else {
      var r := db.DeleteSpecialty(id);
      refused := None;
    }
  }

  /** The first n specialties of a bulk selection that have no doctors, in selection order. */
  function Deletable(doctors: Table<Doctor>, ids: seq<SpecialtyId>, n: nat): (r: seq<SpecialtyId>)
    requires n <= |ids|
    ensures |r| <= n
  {
    if n == 0 then []
    else Deletable(doctors, ids, n - 1) + (if HasDoctors(doctors, ids[n - 1]) then [] else [ids[n - 1]])
  }

  /** The first n specialties of a bulk selection that are kept and warned about, in selection order. */
  function Kept(doctors: Table<Doctor>, ids: seq<SpecialtyId>, n: nat): (r: seq<SpecialtyId>)
    requires n <= |ids|
    ensures |r| <= n
  {
    if n == 0 then []
    else Kept(doctors, ids, n - 1) + (if HasDoctors(doctors, ids[n - 1]) then [ids[n - 1]] else [])
  }

  /** Deletable holds exactly the selected specialties without doctors, and Kept the others. */
  lemma {:induction false} SelectionMembers(doctors: Table<Doctor>, ids: seq<SpecialtyId>, n: nat)
    requires n <= |ids|
    ensures forall x :: x in Deletable(doctors, ids, n) <==> x in ids[..n] && !HasDoctors(doctors, x)
    ensures forall x :: x in Kept(doctors, ids, n) <==> x in ids[..n] && HasDoctors(doctors, x)
  {
    if n > 0 {
      SelectionMembers(doctors, ids, n - 1);
      assert ids[..n] == ids[..n - 1] + [ids[n - 1]];
    }
  }

  /** Every selected specialty is either deleted or warned about, never both. */
  lemma {:induction false} DeletableAndKeptSplit(doctors: Table<Doctor>, ids: seq<SpecialtyId>, n: nat)
    requires n <= |ids|
    ensures |Deletable(doctors, ids, n)| + |Kept(doctors, ids, n)| == n
  {
    if n > 0 {
      DeletableAndKeptSplit(doctors, ids, n - 1);
    }
  }

  /** The specialties table after deleting the first n selected specialties one by one, skipping those with doctors. */
  function Purge(t: Table<Specialty>, doctors: Table<Doctor>, ids: seq<SpecialtyId>, n: nat): Table<Specialty>
    requires n <= |ids|
  {
    if n == 0 then t
    else
      var rest := Purge(t, doctors, ids, n - 1);
      if HasDoctors(doctors, ids[n - 1]) then rest else Delete(rest, ids[n - 1])
  }

  /** After the bulk delete, a specialty remains exactly when it was there and not deletable. */
  lemma {:induction false} PurgeRemovesExactlyDeletable(t: Table<Specialty>, doctors: Table<Doctor>, ids: seq<SpecialtyId>, n: nat)
    requires n <= |ids|
    ensures forall x :: x in Purge(t, doctors, ids, n) <==> x in t && x.id !in Deletable(doctors, ids, n)
  {
    if n > 0 {
      PurgeRemovesExactlyDeletable(t, doctors, ids, n - 1);
      var rest, last := Purge(t, doctors, ids, n - 1), ids[n - 1];
      if HasDoctors(doctors, last) {
        assert Purge(t, doctors, ids, n) == rest && Deletable(doctors, ids, n) == Deletable(doctors, ids, n - 1);
      } else {
        assert Purge(t, doctors, ids, n) == Delete(rest, last);
        assert Deletable(doctors, ids, n) == Deletable(doctors, ids, n - 1) + [last];
      }
    }
  }

  /**
   * `SpecialtyAdmin.delete_queryset`: each selected specialty without
   * doctors is deleted and counted, each other one draws a warning, and a
   * success message follows when anything was deleted.
   */
  method DeleteQueryset(db: Database, ids: seq<SpecialtyId>) returns (deletedCount: nat, warned: seq<SpecialtyId>, success: bool)
    requires db.Valid()
    modifies db`specialties
    ensures db.Valid()
    ensures db.specialties == Purge(old(db.specialties), db.doctors, ids, |ids|)
    ensures deletedCount == |Deletable(db.doctors, ids, |ids|)|
    ensures warned == Kept(db.doctors, ids, |ids|)
    ensures success <==> deletedCount > 0
  {
    ghost var doctors, t := db.doctors, db.specialties;
    deletedCount := 0;
    warned := [];
    var i := 0;
    while i < |ids|
      invariant 0 <= i <= |ids|
      invariant db.Valid()
      invariant db.doctors == doctors
      invariant db.specialties == Purge(t, doctors, ids, i)
      invariant deletedCount == |Deletable(doctors, ids, i)|
      invariant warned == Kept(doctors, ids, i)
    {
      var id := ids[i];
      if !HasDoctors(db.doctors, id) {
        var _ := db.DeleteSpecialty(id);
        deletedCount := deletedCount + 1;
      } else {
        warned := warned + [id];
      }
      i := i + 1;
    }
    success := deletedCount > 0;
  }
}
