/** The admin panel's operations: cancelling an appointment, deciding registrations, editing,
    toggling, archiving and restoring doctors and patients, and the statistics it shows. */
module AdminController {
  import opened Collections
  import opened JsText
  import opened SlotLedger
  import opened Models
  import opened ClinicStore
  import opened DayOff
  import opened EmailService
  import opened UserAccounts

  /** appointmentCancel: the cancellation write, then a slot release only when the doctor and
      the date's list exist. */
  method AppointmentCancel(db: Store, appointmentId: string, reason: string) returns (reply: Reply)
    requires db.Valid()
    modifies db
    ensures db.Valid()
    ensures db.users == old(db.users)
    ensures AppointmentIndex(old(db.appointments), appointmentId).None? ==>
              reply == Fail("Appointment not found")
              && db.appointments == old(db.appointments) && db.doctors == old(db.doctors)
    ensures AppointmentIndex(old(db.appointments), appointmentId).Some? ==>
              var i := AppointmentIndex(old(db.appointments), appointmentId).value;
              var a := old(db.appointments)[i];
              reply == Ok("Appointment Cancelled Successfully")
              && db.appointments == old(db.appointments)[i := Cancelled(a, reason, ByAdmin)]
              && if DoctorIndex(old(db.doctors), a.docId).None? then db.doctors == old(db.doctors)
                 else
                   var j := DoctorIndex(old(db.doctors), a.docId).value;
                   var doc := old(db.doctors)[j];
                   db.doctors == old(db.doctors)[j := doc.(slotsBooked :=
                                   ReleaseIfPresent(doc.slotsBooked, a.slotDate, a.slotTime))]
  {
    var found := AppointmentIndex(db.appointments, appointmentId);
    if found.None? {
      return Fail("Appointment not found");
    }
    var i := found.value;
    var a := db.appointments[i];
    ReplaceAppointmentKeepsValid(db.appointments, i, Cancelled(a, reason, ByAdmin));
    db.appointments := db.appointments[i := Cancelled(a, reason, ByAdmin)];
    var docFound := DoctorIndex(db.doctors, a.docId);
    if docFound.Some? {
      var j := docFound.value;
      var doc := db.doctors[j];
      if a.slotDate in doc.slotsBooked {
        var slots := doc.slotsBooked[a.slotDate := Without(doc.slotsBooked[a.slotDate], a.slotTime)];
        ReleaseKeepsWellFormed(doc.slotsBooked, a.slotDate, a.slotTime);
        ReplaceDoctorKeepsValid(db.doctors, j, doc.(slotsBooked := slots));
        db.doctors := db.doctors[j := doc.(slotsBooked := slots)];
      }
    }
    reply := Ok("Appointment Cancelled Successfully");
  }

  /** The statuses updateApprovalStatus accepts; 'pending' and anything else are refused. */
  function ParseStatus(status: string): (r: Option<ApprovalStatus>)
    ensures r.Some? <==> status == "approved" || status == "declined" || status == "blocked"
    ensures r.Some? ==> StatusName(r.value) == status && r.value != Pending
  {
    if status == "approved" then Some(Approved)
    else if status == "declined" then Some(Declined)
    else if status == "blocked" then Some(Blocked)
    else None
  }

  /** `User ${status === 'blocked' ? 'blocked' : `registration ${status}`} successfully` */
  function ApprovalMessage(status: string): string {
    "User " + (if status == "blocked" then "blocked" else "registration " + status) + " successfully"
  }

  /** updateApprovalStatus: the status check, the update, then the decision mail for every
      accepted status but 'blocked'. */
  method UpdateApprovalStatus(db: Store, userId: string, status: string)
    returns (reply: Reply, mail: Option<RegistrationMail>)
    requires db.Valid()
    modifies db
    ensures db.Valid()
    ensures db.doctors == old(db.doctors) && db.appointments == old(db.appointments)
    ensures ParseStatus(status).None? ==>
              reply == ErrorReply(400, "Invalid approval status") && mail.None?
              && db.users == old(db.users)
    ensures ParseStatus(status).Some? && UserIndex(old(db.users), userId).None? ==>
              reply == ErrorReply(404, "User not found") && mail.None? && db.users == old(db.users)
    ensures ParseStatus(status).Some? && UserIndex(old(db.users), userId).Some? ==>
              var i := UserIndex(old(db.users), userId).value;
              var u := old(db.users)[i];
              reply == Ok(ApprovalMessage(status))
              && db.users == old(db.users)[i := u.(approvalStatus := ParseStatus(status).value)]
              && (status == "blocked" <==> mail.None?)
              && (mail.Some? ==> mail.value == RegistrationEmail(u.email, status))
  {
    var parsed := ParseStatus(status);
    if parsed.None? {
      return ErrorReply(400, "Invalid approval status"), None;
    }
    var found := UserIndex(db.users, userId);
    if found.None? {
      return ErrorReply(404, "User not found"), None;
    }
    var i := found.value;
    var u := db.users[i].(approvalStatus := parsed.value);
    ReplaceUserKeepsValid(db.users, i, u);
    db.users := db.users[i := u];
    mail := if status != "blocked" then Some(RegistrationEmail(u.email, status)) else None;
    reply := Ok(ApprovalMessage(status));
  }

  /** Changing a field other than the email leaves the first account per email where it was. */
  lemma UserByEmailAfterUpdate(us: seq<User>, i: nat, u: User, email: string)
    requires i < |us| && u.email == us[i].email
    ensures UserByEmail(us[i := u], email) == UserByEmail(us, email)
  {
    assert forall j :: 0 <= j < |us| ==> us[i := u][j].email == us[j].email;
  }

  /** Approval opens login with the right password; a block or a decline closes it. */
  lemma ApprovalDecidesLogin(us: seq<User>, i: nat, s: ApprovalStatus, password: string,
                             matches: (string, string) -> bool)
    requires i < |us| && UserByEmail(us, us[i].email) == Some(i)
    requires matches(password, us[i].passwordHash)
    ensures Login(us[i := us[i].(approvalStatus := s)], us[i].email, password, matches).LoggedIn?
            <==> s == Approved
  {
    UserByEmailAfterUpdate(us, i, us[i].(approvalStatus := s), us[i].email);
  }

  /** The edit form of updateDoctor; "" stands for a field left out. The name extension and the
      day off are compared with undefined, so they are None when absent. */
  datatype DoctorEdit = DoctorEdit(name: string, nameExtension: Option<string>, email: string,
                                   speciality: string, degree: string, experience: string,
                                   about: string, fees: string, address: string,
                                   licenseId: string, dayOff: Option<string>)

  /** `value || stored` */
  function OrStored(value: string, stored: string): (r: string)
    ensures value != "" ==> r == value
    ensures value == "" ==> r == stored
  {
    if value != "" then value else stored
  }

  /** The updateData merge: each truthy field replaces the stored one, the extension replaces
      it whenever given, fees go through Number, and an uploaded image replaces the stored one.
      None is the cast failure of a fee that is not a number. The day off, ledger and status
      fields are never part of it. */
  function MergeUpdate(doc: Doctor, edit: DoctorEdit, image: Option<string>): (r: Option<Doctor>)
    ensures r.None? <==> edit.fees != "" && !NumberOf(edit.fees).Num?
    ensures r.Some? ==>
              var d := r.value;
              d.id == doc.id && d.dayOff == doc.dayOff && d.slotsBooked == doc.slotsBooked
              && d.available == doc.available && d.isArchived == doc.isArchived
              && d.archivedAt == doc.archivedAt && d.passwordHash == doc.passwordHash
              && d.date == doc.date
              && d.name == OrStored(edit.name, doc.name)
              && d.email == OrStored(edit.email, doc.email)
              && d.speciality == OrStored(edit.speciality, doc.speciality)
              && d.degree == OrStored(edit.degree, doc.degree)
              && d.experience == OrStored(edit.experience, doc.experience)
              && d.about == OrStored(edit.about, doc.about)
              && d.address == OrStored(edit.address, doc.address)
              && d.licenseId == OrStored(edit.licenseId, doc.licenseId)
              && d.nameExtension == (if edit.nameExtension.Some? then edit.nameExtension.value
                                     else doc.nameExtension)
              && d.fees == (if edit.fees != "" then NumberOf(edit.fees).n else doc.fees)
              && d.image == (if image.Some? then image.value else doc.image)
  {
    if edit.fees != "" && !NumberOf(edit.fees).Num? then None
    else
      Some(doc.(name := OrStored(edit.name, doc.name),
                nameExtension := if edit.nameExtension.Some? then edit.nameExtension.value
                                 else doc.nameExtension,
                email := OrStored(edit.email, doc.email),
                speciality := OrStored(edit.speciality, doc.speciality),
                degree := OrStored(edit.degree, doc.degree),
                experience := OrStored(edit.experience, doc.experience),
                about := OrStored(edit.about, doc.about),
                fees := if edit.fees != "" then NumberOf(edit.fees).n else doc.fees,
                address := OrStored(edit.address, doc.address),
                licenseId := OrStored(edit.licenseId, doc.licenseId),
                image := if image.Some? then image.value else doc.image))
  }

  /** An empty edit without an image changes nothing. */
  lemma EmptyEditIsIdentity(doc: Doctor, dayOff: Option<string>)
    ensures MergeUpdate(doc, DoctorEdit("", None, "", "", "", "", "", "", "", "", dayOff), None)
            == Some(doc)
  {
  }

  /** Submitting the same edit twice stores what submitting it once does. */
  lemma MergeIdempotent(doc: Doctor, edit: DoctorEdit, image: Option<string>)
    requires MergeUpdate(doc, edit, image).Some?
    ensures MergeUpdate(MergeUpdate(doc, edit, image).value, edit, image) == MergeUpdate(doc, edit, image)
  {
  }

  /** A fee field that spells an integer is stored as that integer. */
  lemma FeeStoredAsNumber(doc: Doctor, edit: DoctorEdit, image: Option<string>, n: int)
    requires edit.fees == IntToString(n)
    ensures MergeUpdate(doc, edit, image).Some? && MergeUpdate(doc, edit, image).value.fees == n
  {
    NumberOfRoundTrip(n);
    assert edit.fees != "" by {
      assert |NatToString(if n < 0 then -n else n)| >= 1;
    }
  }

  /** The request's day off differs from the stored one: the trigger for the day-off pass. */
  predicate DayOffChanged(dayOff: Option<string>, doc: Doctor) {
    dayOff.Some? && dayOff.value != doc.dayOff
  }

  /** Another doctor already has this email (the unique index refuses the update). */
  predicate EmailClash(ds: seq<Doctor>, k: nat, email: string) {
    exists j :: 0 <= j < |ds| && j != k && ds[j].email == email
  }

  const CastFailure := "Cast to Number failed for value \"NaN\" (type number) at path \"fees\""
  const DuplicateEmail := "E11000 duplicate key error collection: doctors index: email_1 dup key"

  /** updateDoctor: the merge, the write, then the day-off pass when the request names a
      different day off -- which the merge itself never stores. */
  method UpdateDoctor(db: Store, id: string, edit: DoctorEdit, image: Option<string>, today: Weekday)
    returns (reply: Reply)
    requires db.Valid()
    modifies db
    ensures db.Valid()
    ensures db.appointments == old(db.appointments) && db.users == old(db.users)
    ensures DoctorIndex(old(db.doctors), id).None? ==>
              reply == Fail("Doctor not found") && db.doctors == old(db.doctors)
    ensures DoctorIndex(old(db.doctors), id).Some? ==>
              var k := DoctorIndex(old(db.doctors), id).value;
              var doc := old(db.doctors)[k];
              var merged := MergeUpdate(doc, edit, image);
              if merged.None? then reply == Fail(CastFailure) && db.doctors == old(db.doctors)
              else if EmailClash(old(db.doctors), k, merged.value.email) then
                reply == Fail(DuplicateEmail) && db.doctors == old(db.doctors)
              else
                reply == Ok("Doctor updated successfully")
                && db.doctors == if DayOffChanged(edit.dayOff, doc)
                                 then Pass(old(db.doctors)[k := merged.value], today)
                                 else old(db.doctors)[k := merged.value]
  {
    var found := DoctorIndex(db.doctors, id);
    if found.None? {
      return Fail("Doctor not found");
    }
    var k := found.value;
    var doc := db.doctors[k];
    var merged := MergeUpdate(doc, edit, image);
    if merged.None? {
      return Fail(CastFailure);
    }
    if EmailClash(db.doctors, k, merged.value.email) {
      return Fail(DuplicateEmail);
    }
    ReplaceDoctorNewEmailKeepsValid(db.doctors, k, merged.value);
    db.doctors := db.doctors[k := merged.value];
    if DayOffChanged(edit.dayOff, doc) {
      var _ := UpdateDoctorAvailabilityBasedOnDayOff(db, today);
    }
    reply := Ok("Doctor updated successfully");
  }

  /** Whatever the request says about the day off, updateDoctor leaves every stored day off
      as it was. */
  lemma UpdateKeepsDayOff(ds: seq<Doctor>, k: nat, edit: DoctorEdit, image: Option<string>,
                          today: Weekday, j: nat)
    requires k < |ds| && j < |ds| && MergeUpdate(ds[k], edit, image).Some?
    ensures ds[k := MergeUpdate(ds[k], edit, image).value][j].dayOff == ds[j].dayOff
    ensures Pass(ds[k := MergeUpdate(ds[k], edit, image).value], today)[j].dayOff == ds[j].dayOff
  {
  }

  /** changeAvailability: the toggle and a message naming the new state. */
  method ChangeAvailability(db: Store, docId: string) returns (reply: Reply)
    requires db.Valid()
    modifies db
    ensures db.Valid()
    ensures db.appointments == old(db.appointments) && db.users == old(db.users)
    ensures DoctorIndex(old(db.doctors), docId).None? ==>
              reply == Fail("Doctor not found") && db.doctors == old(db.doctors)
    ensures DoctorIndex(old(db.doctors), docId).Some? ==>
              var k := DoctorIndex(old(db.doctors), docId).value;
              db.doctors == old(db.doctors)[k := Toggled(old(db.doctors)[k])]
              && reply == Ok(if db.doctors[k].available then "Doctor is now available"
                             else "Doctor is now unavailable")
  {
    var found := DoctorIndex(db.doctors, docId);
    if found.None? {
      return Fail("Doctor not found");
    }
    var k := found.value;
    var d := Toggled(db.doctors[k]);
    ReplaceDoctorKeepsValid(db.doctors, k, d);
    db.doctors := db.doctors[k := d];
    reply := Ok(if d.available then "Doctor is now available" else "Doctor is now unavailable");
  }

  /** { isArchived: true, archivedAt: new Date() } on a doctor. */
  function ArchivedDoctor(d: Doctor, now: Millis): (r: Doctor)
    ensures r.isArchived && r.archivedAt == Some(now)
    ensures r.(isArchived := d.isArchived, archivedAt := d.archivedAt) == d
  {
    d.(isArchived := true, archivedAt := Some(now))
  }

  /** { isArchived: false, archivedAt: null } on a doctor. */
  function RestoredDoctor(d: Doctor): (r: Doctor)
    ensures !r.isArchived && r.archivedAt.None?
    ensures r.(isArchived := d.isArchived, archivedAt := d.archivedAt) == d
  {
    d.(isArchived := false, archivedAt := None)
  }

  /** Restoring undoes archiving for a doctor that was never archived before. */
  lemma RestoreUndoesArchive(d: Doctor, now: Millis)
    requires !d.isArchived && d.archivedAt.None?
    ensures RestoredDoctor(ArchivedDoctor(d, now)) == d
  {
  }

  /** allDoctors: the doctors with isArchived other than true, in order. */
  function ListedDoctors(ds: seq<Doctor>): (r: seq<Doctor>)
    ensures forall d :: d in r <==> d in ds && !d.isArchived
    ensures |r| <= |ds|
  {
    Filter(ds, (d: Doctor) => !d.isArchived)
  }

  /** An archived doctor drops out of the list and a restored one comes back. */
  lemma ArchiveHidesDoctor(ds: seq<Doctor>, k: nat, now: Millis)
    requires k < |ds|
    ensures ArchivedDoctor(ds[k], now) !in ListedDoctors(ds[k := ArchivedDoctor(ds[k], now)])
    ensures RestoredDoctor(ds[k]) in ListedDoctors(ds[k := RestoredDoctor(ds[k])])
  {
    assert ds[k := RestoredDoctor(ds[k])][k] == RestoredDoctor(ds[k]);
  }

  /** archiveDoctor (and deleteDoctor, which calls it). */
  method ArchiveDoctor(db: Store, id: string, now: Millis) returns (reply: Reply)
    requires db.Valid()
    modifies db
    ensures db.Valid()
    ensures db.appointments == old(db.appointments) && db.users == old(db.users)
    ensures DoctorIndex(old(db.doctors), id).None? ==>
              reply == Fail("Doctor not found") && db.doctors == old(db.doctors)
    ensures DoctorIndex(old(db.doctors), id).Some? ==>
              var k := DoctorIndex(old(db.doctors), id).value;
              reply == Ok("Doctor archived successfully")
              && db.doctors == old(db.doctors)[k := ArchivedDoctor(old(db.doctors)[k], now)]
  {
    var found := DoctorIndex(db.doctors, id);
    if found.None? {
      return Fail("Doctor not found");
    }
    var k := found.value;
    ReplaceDoctorKeepsValid(db.doctors, k, ArchivedDoctor(db.doctors[k], now));
    db.doctors := db.doctors[k := ArchivedDoctor(db.doctors[k], now)];
    reply := Ok("Doctor archived successfully");
  }

  /** restoreDoctor. */
  method RestoreDoctor(db: Store, id: string) returns (reply: Reply)
    requires db.Valid()
    modifies db
    ensures db.Valid()
    ensures db.appointments == old(db.appointments) && db.users == old(db.users)
    ensures DoctorIndex(old(db.doctors), id).None? ==>
              reply == Fail("Doctor not found") && db.doctors == old(db.doctors)
    ensures DoctorIndex(old(db.doctors), id).Some? ==>
              var k := DoctorIndex(old(db.doctors), id).value;
              reply == Ok("Doctor restored successfully")
              && db.doctors == old(db.doctors)[k := RestoredDoctor(old(db.doctors)[k])]
  {
    var found := DoctorIndex(db.doctors, id);
    if found.None? {
      return Fail("Doctor not found");
    }
    var k := found.value;
    ReplaceDoctorKeepsValid(db.doctors, k, RestoredDoctor(db.doctors[k]));
    db.doctors := db.doctors[k := RestoredDoctor(db.doctors[k])];
    reply := Ok("Doctor restored successfully");
  }

  /** { isArchived: true, archivedAt: new Date() } on a patient. */
  function ArchivedUser(u: User, now: Millis): (r: User)
    ensures r.isArchived && r.archivedAt == Some(now)
    ensures r.(isArchived := u.isArchived, archivedAt := u.archivedAt) == u
  {
    u.(isArchived := true, archivedAt := Some(now))
  }

  /** { isArchived: false, archivedAt: null } on a patient. */
  function RestoredUser(u: User): (r: User)
    ensures !r.isArchived && r.archivedAt.None?
    ensures r.(isArchived := u.isArchived, archivedAt := u.archivedAt) == u
  {
    u.(isArchived := false, archivedAt := None)
  }

  /** getAllUsers: the patients with isArchived other than true, in order. */
  function ListedUsers(us: seq<User>): (r: seq<User>)
    ensures forall u :: u in r <==> u in us && !u.isArchived
    ensures |r| <= |us|
  {
    Filter(us, (u: User) => !u.isArchived)
  }

  /** archiveUser (and deleteUser, which calls it). */
  method ArchiveUser(db: Store, userId: string, now: Millis) returns (reply: Reply)
    requires db.Valid()
    modifies db
    ensures db.Valid()
    ensures db.doctors == old(db.doctors) && db.appointments == old(db.appointments)
    ensures UserIndex(old(db.users), userId).None? ==>
              reply == ErrorReply(404, "User not found") && db.users == old(db.users)
    ensures UserIndex(old(db.users), userId).Some? ==>
              var i := UserIndex(old(db.users), userId).value;
              reply == Ok("User archived successfully")
              && db.users == old(db.users)[i := ArchivedUser(old(db.users)[i], now)]
  {
    var found := UserIndex(db.users, userId);
    if found.None? {
      return ErrorReply(404, "User not found");
    }
    var i := found.value;
    ReplaceUserKeepsValid(db.users, i, ArchivedUser(db.users[i], now));
    db.users := db.users[i := ArchivedUser(db.users[i], now)];
    reply := Ok("User archived successfully");
  }

  /** restoreUser. */
  method RestoreUser(db: Store, userId: string) returns (reply: Reply)
    requires db.Valid()
    modifies db
    ensures db.Valid()
    ensures db.doctors == old(db.doctors) && db.appointments == old(db.appointments)
    ensures UserIndex(old(db.users), userId).None? ==>
              reply == ErrorReply(404, "User not found") && db.users == old(db.users)
    ensures UserIndex(old(db.users), userId).Some? ==>
              var i := UserIndex(old(db.users), userId).value;
              reply == Ok("User restored successfully")
              && db.users == old(db.users)[i := RestoredUser(old(db.users)[i])]
  {
    var found := UserIndex(db.users, userId);
    if found.None? {
      return ErrorReply(404, "User not found");
    }
    var i := found.value;
    ReplaceUserKeepsValid(db.users, i, RestoredUser(db.users[i]));
    db.users := db.users[i := RestoredUser(db.users[i])];
    reply := Ok("User restored successfully");
  }

  /** One patient's counters in getUsersAppointmentStats. */
  datatype UserStats = UserStats(total: nat, approved: nat, pending: nat, cancelled: nat)

  /** One appointment counted: cancelled first, then completed ('approved'), else pending. */
  function Tally(s: UserStats, a: Appointment): UserStats {
    if a.cancelled then s.(total := s.total + 1, cancelled := s.cancelled + 1)
    else if a.isCompleted then s.(total := s.total + 1, approved := s.approved + 1)
    else s.(total := s.total + 1, pending := s.pending + 1)
  }

  /** A patient's counters over the whole collection, tallied in order. */
  function StatsFor(appts: seq<Appointment>, userId: string): (r: UserStats)
    ensures r.total == r.cancelled + r.approved + r.pending
  {
    if |appts| == 0 then UserStats(0, 0, 0, 0)
    else
      var a := appts[|appts| - 1];
      var s := StatsFor(appts[..|appts| - 1], userId);
      if a.userId == userId then Tally(s, a) else s
  }

  /** Every appointment of the patient counts once, a cancelled one as cancelled whether or
      not it is also completed, a completed one as approved only when not cancelled. */
  lemma {:induction false} StatsForCounts(appts: seq<Appointment>, userId: string)
    ensures StatsFor(appts, userId).total == Count(appts, (a: Appointment) => a.userId == userId)
    ensures StatsFor(appts, userId).cancelled
            == Count(appts, (a: Appointment) => a.userId == userId && a.cancelled)
    ensures StatsFor(appts, userId).approved
            == Count(appts, (a: Appointment) => a.userId == userId && !a.cancelled && a.isCompleted)
  {
    if |appts| > 0 {
      StatsForCounts(appts[..|appts| - 1], userId);
    }
  }

  /** Extending the collection by its next appointment tallies it for its own patient only. */
  lemma StatsForStep(appts: seq<Appointment>, i: nat)
    requires i < |appts|
    ensures forall u :: StatsFor(appts[..i + 1], u)
                        == if appts[i].userId == u then Tally(StatsFor(appts[..i], u), appts[i])
                           else StatsFor(appts[..i], u)
  {
    assert appts[..i + 1][..i] == appts[..i];
  }

  /** getUsersAppointmentStats: the forEach over all appointments, skipping those without a
      user id and opening a counter record on a patient's first appointment. */
  method UsersAppointmentStats(appts: seq<Appointment>) returns (stats: map<string, UserStats>)
    ensures forall u :: u in stats <==> u != "" && StatsFor(appts, u).total > 0
    ensures forall u :: u in stats ==> stats[u] == StatsFor(appts, u)
  {
    stats := map[];
    var i := 0;
    while i < |appts|
      invariant 0 <= i <= |appts|
      invariant forall u :: u in stats <==> u != "" && StatsFor(appts[..i], u).total > 0
      invariant forall u :: u in stats ==> stats[u] == StatsFor(appts[..i], u)
    {
      var a := appts[i];
      StatsForStep(appts, i);
      if a.userId != "" {
        if a.userId !in stats {
          stats := stats[a.userId := UserStats(0, 0, 0, 0)];
        }
        stats := stats[a.userId := Tally(stats[a.userId], a)];
      }
      i := i + 1;
    }
    assert appts[..|appts|] == appts;
  }

  /** A cancelled and completed appointment counts as cancelled, never as approved. */
  lemma CancelledTakesPrecedence(a: Appointment, s: UserStats)
    requires a.cancelled && a.isCompleted
    ensures Tally(s, a).cancelled == s.cancelled + 1 && Tally(s, a).approved == s.approved
  {
  }

  /** The counts manualDayOffCheck reports. */
  datatype DayOffCounts = DayOffCounts(total: nat, onDayOff: nat, available: nat, unavailable: nat,
                                       withDayOff: nat, withoutDayOff: nat)

  function DayOffStats(ds: seq<Doctor>, today: Weekday): (r: DayOffCounts)
    ensures r.total == |ds|
    ensures r.available + r.unavailable == r.total
    ensures r.withDayOff + r.withoutDayOff == r.total
    ensures r.onDayOff <= r.withDayOff
  {
    var onDayOff := (d: Doctor) => d.dayOff == DayName(today);
    var available := (d: Doctor) => d.available;
    var unavailable := (d: Doctor) => !d.available;
    var withDayOff := (d: Doctor) => d.dayOff != "";
    var withoutDayOff := (d: Doctor) => d.dayOff == "";
    CountComplement(ds, available, unavailable);
    CountComplement(ds, withDayOff, withoutDayOff);
    DayNamesDistinct(today, today);
    CountMonotone(ds, onDayOff, withDayOff);
    DayOffCounts(|ds|, Count(ds, onDayOff), Count(ds, available), Count(ds, unavailable),
                 Count(ds, withDayOff), Count(ds, withoutDayOff))
  }

  /** After the pass every doctor off today is unavailable, so they are counted among the
      unavailable. */
  lemma OnDayOffAreUnavailable(ds: seq<Doctor>, today: Weekday)
    ensures DayOffStats(Pass(ds, today), today).onDayOff <= DayOffStats(Pass(ds, today), today).unavailable
  {
    var after := Pass(ds, today);
    assert forall k :: 0 <= k < |after| ==> after[k].dayOff == DayName(today) ==> !after[k].available;
    CountMonotone(after, (d: Doctor) => d.dayOff == DayName(today), (d: Doctor) => !d.available);
  }

  /** One row of the doctors list manualDayOffCheck returns. */
  datatype DoctorDayOffView = DoctorDayOffView(id: string, name: string, dayOff: string,
                                               available: bool, isOnDayOff: bool, status: string,
                                               dayOffStatus: string)

  function DayOffView(doc: Doctor, today: Weekday): (v: DoctorDayOffView)
    ensures v.dayOff == (if doc.dayOff == "" then "None" else doc.dayOff)
    ensures v.status == (if doc.available then "Available" else "Unavailable")
    ensures doc.dayOff == "" ==> v.dayOffStatus == "No day off set"
    ensures doc.dayOff == DayName(today) ==> v.dayOffStatus == "Currently on day off" && v.isOnDayOff
    ensures doc.dayOff != "" && doc.dayOff != DayName(today) ==>
              v.dayOffStatus == "Day off is on " + doc.dayOff && !v.isOnDayOff
  {
    DayNamesDistinct(today, today);
    DoctorDayOffView(doc.id, doc.name, if doc.dayOff != "" then doc.dayOff else "None",
                     doc.available, doc.dayOff == DayName(today),
                     if doc.available then "Available" else "Unavailable",
                     if doc.dayOff == "" then "No day off set"
                     else if doc.dayOff == DayName(today) then "Currently on day off"
                     else "Day off is on " + doc.dayOff)
  }

  function DayOffCheckMessage(today: Weekday, onDayOff: nat): string {
    "Doctor availability updated. Today is " + DayName(today) + ". " + NatToString(onDayOff)
      + " doctors have today as their day off."
  }

  /** manualDayOffCheck: the pass, then the counts and rows over the doctors it leaves. */
  method ManualDayOffCheck(db: Store, today: Weekday)
    returns (message: string, stats: DayOffCounts, rows: seq<DoctorDayOffView>)
    requires db.Valid()
    modifies db
    ensures db.Valid()
    ensures db.doctors == Pass(old(db.doctors), today)
    ensures db.appointments == old(db.appointments) && db.users == old(db.users)
    ensures stats == DayOffStats(db.doctors, today) && stats.onDayOff <= stats.unavailable
    ensures message == DayOffCheckMessage(today, stats.onDayOff)
    ensures |rows| == |db.doctors|
    ensures forall k :: 0 <= k < |rows| ==> rows[k] == DayOffView(db.doctors[k], today)
  {
    var _ := UpdateDoctorAvailabilityBasedOnDayOff(db, today);
    OnDayOffAreUnavailable(old(db.doctors), today);
    stats := DayOffStats(db.doctors, today);
    message := DayOffCheckMessage(today, stats.onDayOff);
    var ds := db.doctors;
    rows := seq(|ds|, k requires 0 <= k < |ds| => DayOffView(ds[k], today));
  }

  /** The counts and list of adminDashboard. */
  datatype AdminDashData = AdminDashData(doctors: nat, appointments: nat, patients: nat,
                                         latestAppointments: seq<Appointment>)

  /** adminDashboard: collection sizes and every appointment, newest first. */
  function AdminDashboard(ds: seq<Doctor>, us: seq<User>, appts: seq<Appointment>): (r: AdminDashData)
    ensures r.doctors == |ds| && r.patients == |us| && r.appointments == |appts|
    ensures |r.latestAppointments| == |appts|
    ensures forall k :: 0 <= k < |appts| ==> r.latestAppointments[k] == appts[|appts| - 1 - k]
    ensures forall a :: a in r.latestAppointments <==> a in appts
  {
    var latest := Reverse(appts);
    assert forall a :: a in appts ==> a in latest by {
      forall a | a in appts
        ensures a in latest
      {
        var k :| 0 <= k < |appts| && appts[k] == a;
        assert latest[|appts| - 1 - k] == a;
      }
    }
    AdminDashData(|ds|, |appts|, |us|, latest)
  }
}
