/** The doctor panel's operations: cancelling and completing the doctor's own appointments,
    adding a consultation summary, the availability toggle, the profile edit, the dashboard,
    the history list and the password change. */
module DoctorController {
  import opened Collections
  import opened JsText
  import opened Models
  import opened ClinicStore
  import opened EmailService

  /** The appointment exists and belongs to the doctor making the request. */
  predicate Owned(appts: seq<Appointment>, appointmentId: string, docId: string) {
    AppointmentIndex(appts, appointmentId).Some?
    && appts[AppointmentIndex(appts, appointmentId).value].docId == docId
  }

  /** The status mail to the patient: sent only when the patient exists and has an email. It
      is composed from the appointment as read before the update. */
  function PatientMail(users: seq<User>, a: Appointment, status: string): (r: Option<PatientStatusMail>)
    ensures r.Some? <==> UserIndex(users, a.userId).Some? && users[UserIndex(users, a.userId).value].email != ""
    ensures r.Some? ==> r.value == PatientStatusNotification(users[UserIndex(users, a.userId).value].email, a, status)
  {
    match UserIndex(users, a.userId)
    case None => None
    case Some(k) =>
      if users[k].email != "" then Some(PatientStatusNotification(users[k].email, a, status)) else None
  }

  /** appointmentCancel of the doctor panel: the owner check and the cancellation write. The
      doctor's ledger is never touched, so the slot stays taken. */
  method AppointmentCancel(db: Store, docId: string, appointmentId: string, reason: string)
    returns (reply: Reply, mail: Option<PatientStatusMail>)
    requires db.Valid()
    modifies db
    ensures db.Valid()
    ensures db.doctors == old(db.doctors) && db.users == old(db.users)
    ensures !Owned(old(db.appointments), appointmentId, docId) ==>
              reply == Fail("Appointment Cancelled") && mail.None?
              && db.appointments == old(db.appointments)
    ensures Owned(old(db.appointments), appointmentId, docId) ==>
              var i := AppointmentIndex(old(db.appointments), appointmentId).value;
              var a := old(db.appointments)[i];
              reply == Ok("Appointment Cancelled")
              && db.appointments == old(db.appointments)[i := Cancelled(a, reason, ByDoctor)]
              && mail == PatientMail(old(db.users), a, "cancelled")
  {
    if !Owned(db.appointments, appointmentId, docId) {
      return Fail("Appointment Cancelled"), None;
    }
    var i := AppointmentIndex(db.appointments, appointmentId).value;
    var a := db.appointments[i];
    ReplaceAppointmentKeepsValid(db.appointments, i, Cancelled(a, reason, ByDoctor));
    db.appointments := db.appointments[i := Cancelled(a, reason, ByDoctor)];
    mail := PatientMail(db.users, a, "cancelled");
    reply := Ok("Appointment Cancelled");
  }

  /** appointmentComplete: the owner check and { isCompleted: true }, with no look at the
      cancelled or payment flags. */
  method AppointmentComplete(db: Store, docId: string, appointmentId: string)
    returns (reply: Reply, mail: Option<PatientStatusMail>)
    requires db.Valid()
    modifies db
    ensures db.Valid()
    ensures db.doctors == old(db.doctors) && db.users == old(db.users)
    ensures !Owned(old(db.appointments), appointmentId, docId) ==>
              reply == Fail("Appointment Cancelled") && mail.None?
              && db.appointments == old(db.appointments)
    ensures Owned(old(db.appointments), appointmentId, docId) ==>
              var i := AppointmentIndex(old(db.appointments), appointmentId).value;
              var a := old(db.appointments)[i];
              reply == Ok("Appointment Approved")
              && db.appointments == old(db.appointments)[i := Completed(a)]
              && mail == PatientMail(old(db.users), a, "completed")
  {
    if !Owned(db.appointments, appointmentId, docId) {
      return Fail("Appointment Cancelled"), None;
    }
    var i := AppointmentIndex(db.appointments, appointmentId).value;
    var a := db.appointments[i];
    ReplaceAppointmentKeepsValid(db.appointments, i, Completed(a));
    db.appointments := db.appointments[i := Completed(a)];
    mail := PatientMail(db.users, a, "completed");
    reply := Ok("Appointment Approved");
  }

  /** The summary-text check: a missing or blank summary is refused. */
  predicate SummaryGiven(summary: string) {
    Trim(summary) != ""
  }

  /** A summary of whitespace alone counts as missing. */
  lemma BlankSummaryRefused(summary: string)
    requires forall k :: 0 <= k < |summary| ==> IsJsWhitespace(summary[k])
    ensures !SummaryGiven(summary)
  {
    TrimEmptyIffBlank(summary);
  }

  /** addConsultationSummary: the text check, then the write only on an owned, completed
      appointment. The summary is stored as given, untrimmed. */
  method AddConsultationSummary(db: Store, docId: string, appointmentId: string, summary: string)
    returns (reply: Reply, mail: Option<PatientStatusMail>)
    requires db.Valid()
    modifies db
    ensures db.Valid()
    ensures db.doctors == old(db.doctors) && db.users == old(db.users)
    ensures !SummaryGiven(summary) ==>
              reply == Fail("Consultation summary is required") && mail.None?
              && db.appointments == old(db.appointments)
    ensures SummaryGiven(summary) && !(Owned(old(db.appointments), appointmentId, docId)
              && old(db.appointments)[AppointmentIndex(old(db.appointments), appointmentId).value].isCompleted) ==>
              reply == Fail("Unable to add consultation summary") && mail.None?
              && db.appointments == old(db.appointments)
    ensures SummaryGiven(summary) && Owned(old(db.appointments), appointmentId, docId)
            && old(db.appointments)[AppointmentIndex(old(db.appointments), appointmentId).value].isCompleted ==>
              var i := AppointmentIndex(old(db.appointments), appointmentId).value;
              var a := old(db.appointments)[i];
              reply == Ok("Consultation summary added successfully")
              && db.appointments == old(db.appointments)[i := a.(consultationSummary := summary)]
              && mail == PatientMail(old(db.users), a, "summary_added")
  {
    if !SummaryGiven(summary) {
      return Fail("Consultation summary is required"), None;
    }
    if !Owned(db.appointments, appointmentId, docId) {
      return Fail("Unable to add consultation summary"), None;
    }
    var i := AppointmentIndex(db.appointments, appointmentId).value;
    var a := db.appointments[i];
    if !a.isCompleted {
      return Fail("Unable to add consultation summary"), None;
    }
    ReplaceAppointmentKeepsValid(db.appointments, i, a.(consultationSummary := summary));
    db.appointments := db.appointments[i := a.(consultationSummary := summary)];
    mail := PatientMail(db.users, a, "summary_added");
    reply := Ok("Consultation summary added successfully");
  }

  /** changeAvailablity of the doctor panel: the toggle, or the TypeError of reading
      `available` on a missing doctor. */
  method ChangeAvailablity(db: Store, docId: string) returns (reply: Reply)
    requires db.Valid()
    modifies db
    ensures db.Valid()
    ensures db.appointments == old(db.appointments) && db.users == old(db.users)
    ensures DoctorIndex(old(db.doctors), docId).None? ==>
              reply == Fail("Cannot read properties of null (reading 'available')")
              && db.doctors == old(db.doctors)
    ensures DoctorIndex(old(db.doctors), docId).Some? ==>
              var k := DoctorIndex(old(db.doctors), docId).value;
              reply == Ok("Availablity Changed")
              && db.doctors == old(db.doctors)[k := Toggled(old(db.doctors)[k])]
  {
    var found := DoctorIndex(db.doctors, docId);
    if found.None? {
      return Fail("Cannot read properties of null (reading 'available')");
    }
    var k := found.value;
    ReplaceDoctorKeepsValid(db.doctors, k, Toggled(db.doctors[k]));
    db.doctors := db.doctors[k := Toggled(db.doctors[k])];
    reply := Ok("Availablity Changed");
  }

  /** The fields of the updateDoctorProfile request, each given by its spelling; None is a key
      left undefined, which the update strips. */
  datatype ProfileEdit = ProfileEdit(fees: Option<string>, address: Option<string>,
                                     available: Option<string>, dayOff: Option<string>,
                                     about: Option<string>)

  /** The same fields once Mongoose has cast them to the schema's types. */
  datatype ProfileChange = ProfileChange(fees: Option<int>, address: Option<string>,
                                         available: Option<bool>, dayOff: Option<string>,
                                         about: Option<string>)

  /** Mongoose's cast to the Number path fees: a value Number() reads as a number, else a
      CastError (None). */
  function CastFee(v: string): (r: Option<int>)
    ensures r.Some? <==> NumberOf(v).Num?
    ensures r.Some? ==> r.value == NumberOf(v).n
  {
    match NumberOf(v)
    case Num(n) => Some(n)
    case _ => None
  }

  /** Mongoose's cast to the Boolean path available: true, 'true', 1, '1' and 'yes' are true;
      false, 'false', 0, '0' and 'no' are false; anything else is a CastError (None). */
  function CastAvailable(v: string): (r: Option<bool>)
    ensures r == Some(true) <==> v == "true" || v == "1" || v == "yes"
    ensures r == Some(false) <==> v == "false" || v == "0" || v == "no"
  {
    if v == "true" || v == "1" || v == "yes" then Some(true)
    else if v == "false" || v == "0" || v == "no" then Some(false)
    else None
  }

  /** The outcome of casting the update: the cast change, or the CastError of the first path
      (in the order fees, available) whose value does not cast. */
  datatype ProfileCast = Cast(change: ProfileChange) | CastFailed(kind: string, path: string, value: string)

  function CastProfile(edit: ProfileEdit): (r: ProfileCast)
    ensures r.Cast? <==> (edit.fees.Some? ==> CastFee(edit.fees.value).Some?)
                         && (edit.available.Some? ==> CastAvailable(edit.available.value).Some?)
    ensures r.CastFailed? && r.path == "fees" <==> edit.fees.Some? && CastFee(edit.fees.value).None?
    ensures r.CastFailed? ==>
              if r.path == "fees" then r.kind == "Number" && r.value == edit.fees.value
              else r.path == "available" && r.kind == "Boolean" && r.value == edit.available.value
    ensures r.CastFailed? && r.path == "available" <==>
              (edit.fees.Some? ==> CastFee(edit.fees.value).Some?)
              && edit.available.Some? && CastAvailable(edit.available.value).None?
    ensures r.Cast? ==>
              var c := r.change;
              (c.fees.Some? <==> edit.fees.Some?)
              && (edit.fees.Some? ==> c.fees.value == NumberOf(edit.fees.value).n)
              && (c.available.Some? <==> edit.available.Some?)
              && (edit.available.Some? ==> c.available == CastAvailable(edit.available.value))
              && c.address == edit.address && c.dayOff == edit.dayOff && c.about == edit.about
  {
    if edit.fees.Some? && CastFee(edit.fees.value).None? then
      CastFailed("Number", "fees", edit.fees.value)
    else if edit.available.Some? && CastAvailable(edit.available.value).None? then
      CastFailed("Boolean", "available", edit.available.value)
    else
      Cast(ProfileChange(if edit.fees.Some? then CastFee(edit.fees.value) else None,
                         edit.address,
                         if edit.available.Some? then CastAvailable(edit.available.value) else None,
                         edit.dayOff, edit.about))
  }

  /** The CastError's message. */
  function CastMessage(kind: string, path: string, value: string): string {
    "Cast to " + kind + " failed for value \"" + value + "\" (type string) at path \"" + path + "\""
  }

  /** The record after the profile update: each given field replaces the stored one and no
      other field changes. */
  function ProfileUpdated(d: Doctor, change: ProfileChange): (r: Doctor)
    ensures r.fees == (if change.fees.Some? then change.fees.value else d.fees)
    ensures r.address == (if change.address.Some? then change.address.value else d.address)
    ensures r.available == (if change.available.Some? then change.available.value else d.available)
    ensures r.dayOff == (if change.dayOff.Some? then change.dayOff.value else d.dayOff)
    ensures r.about == (if change.about.Some? then change.about.value else d.about)
    ensures r.(fees := d.fees, address := d.address, available := d.available,
               dayOff := d.dayOff, about := d.about) == d
  {
    d.(fees := if change.fees.Some? then change.fees.value else d.fees,
       address := if change.address.Some? then change.address.value else d.address,
       available := if change.available.Some? then change.available.value else d.available,
       dayOff := if change.dayOff.Some? then change.dayOff.value else d.dayOff,
       about := if change.about.Some? then change.about.value else d.about)
  }

  /** updateDoctorProfile: findByIdAndUpdate casts the update first, and a CastError is the
      failure reply whether or not the doctor exists; otherwise the update does nothing for a
      missing doctor, the reply is success either way, and a new day off does not run the
      day-off pass. */
  method UpdateDoctorProfile(db: Store, docId: string, edit: ProfileEdit) returns (reply: Reply)
    requires db.Valid()
    modifies db
    ensures db.Valid()
    ensures db.appointments == old(db.appointments) && db.users == old(db.users)
    ensures CastProfile(edit).CastFailed? ==>
              var e := CastProfile(edit);
              reply == Fail(CastMessage(e.kind, e.path, e.value)) && db.doctors == old(db.doctors)
    ensures CastProfile(edit).Cast? ==> reply == Ok("Profile Updated")
    ensures CastProfile(edit).Cast? && DoctorIndex(old(db.doctors), docId).None? ==>
              db.doctors == old(db.doctors)
    ensures CastProfile(edit).Cast? && DoctorIndex(old(db.doctors), docId).Some? ==>
              var k := DoctorIndex(old(db.doctors), docId).value;
              db.doctors == old(db.doctors)[k := ProfileUpdated(old(db.doctors)[k], CastProfile(edit).change)]
  {
    var cast := CastProfile(edit);
    if cast.CastFailed? {
      return Fail(CastMessage(cast.kind, cast.path, cast.value));
    }
    var found := DoctorIndex(db.doctors, docId);
    if found.Some? {
      var k := found.value;
      var updated := ProfileUpdated(db.doctors[k], cast.change);
      ReplaceDoctorKeepsValid(db.doctors, k, updated);
      db.doctors := db.doctors[k := updated];
    }
    reply := Ok("Profile Updated");
  }

  /** An empty profile edit changes nothing. */
  lemma EmptyProfileEditIsIdentity(d: Doctor)
    ensures CastProfile(ProfileEdit(None, None, None, None, None)) == Cast(ProfileChange(None, None, None, None, None))
    ensures ProfileUpdated(d, ProfileChange(None, None, None, None, None)) == d
  {
  }

  /** find({ docId }): the doctor's appointments in order. */
  function OfDoctor(appts: seq<Appointment>, docId: string): (r: seq<Appointment>)
    ensures forall a :: a in r <==> a in appts && a.docId == docId
  {
    Filter(appts, (a: Appointment) => a.docId == docId)
  }

  /** Whether an appointment counts towards earnings: completed or paid. */
  predicate Earning(a: Appointment) {
    a.isCompleted || a.payment
  }

  /** The total amount of the earning appointments of a list. */
  function EarningsOf(appts: seq<Appointment>): int {
    if |appts| == 0 then 0
    else EarningsOf(appts[..|appts| - 1]) + (if Earning(appts[|appts| - 1]) then appts[|appts| - 1].amount else 0)
  }

  /** Earnings are additive over concatenation, so each appointment contributes once. */
  lemma {:induction false} EarningsAppend(s: seq<Appointment>, t: seq<Appointment>)
    ensures EarningsOf(s + t) == EarningsOf(s) + EarningsOf(t)
    decreases |t|
  {
    if |t| == 0 {
      assert s + t == s;
    } else {
      assert (s + t)[..|s + t| - 1] == s + t[..|t| - 1];
      assert (s + t)[|s + t| - 1] == t[|t| - 1];
      EarningsAppend(s, t[..|t| - 1]);
    }
  }

  /** Appointments that neither completed nor paid contribute nothing. */
  lemma {:induction false} EarningsIgnoreUnpaid(s: seq<Appointment>)
    requires forall k :: 0 <= k < |s| ==> !Earning(s[k])
    ensures EarningsOf(s) == 0
  {
    if |s| > 0 {
      EarningsIgnoreUnpaid(s[..|s| - 1]);
    }
  }

  /** The patient ids of a list of appointments, in order. */
  function UserIds(appts: seq<Appointment>): (r: seq<string>)
    ensures |r| == |appts| && forall k :: 0 <= k < |appts| ==> r[k] == appts[k].userId
  {
    seq(|appts|, k requires 0 <= k < |appts| => appts[k].userId)
  }

  /** The earnings loop takes one more appointment. */
  lemma EarningsStep(mine: seq<Appointment>, i: nat)
    requires i < |mine|
    ensures EarningsOf(mine[..i + 1])
            == EarningsOf(mine[..i]) + (if Earning(mine[i]) then mine[i].amount else 0)
  {
    assert mine[..i + 1][..i] == mine[..i];
  }

  /** The patients loop takes one more appointment: its user id is added unless already seen. */
  lemma PatientsStep(mine: seq<Appointment>, i: nat)
    requires i < |mine|
    ensures var seen := Dedup(UserIds(mine[..i]));
            Dedup(UserIds(mine[..i + 1]))
            == if mine[i].userId in seen then seen else seen + [mine[i].userId]
  {
    assert UserIds(mine[..i + 1])[..i] == UserIds(mine[..i]);
  }

  /** The collected patient ids are as many as the distinct user ids of the appointments. */
  lemma DistinctPatients(mine: seq<Appointment>)
    ensures |Dedup(UserIds(mine))| == |set a | a in mine :: a.userId|
  {
    var patients := Dedup(UserIds(mine));
    DistinctCardinality(patients);
    assert (set x | x in patients) == (set a | a in mine :: a.userId) by {
      forall x | x in patients
        ensures x in (set a | a in mine :: a.userId)
      {
        assert x in UserIds(mine);
        var k :| 0 <= k < |mine| && UserIds(mine)[k] == x;
        assert mine[k] in mine;
      }
      forall a | a in mine
        ensures a.userId in patients
      {
        var k :| 0 <= k < |mine| && mine[k] == a;
        assert UserIds(mine)[k] == a.userId;
      }
    }
  }

  /** The dashboard of the doctor panel. */
  datatype DoctorDashData = DoctorDashData(earnings: int, appointments: nat, patients: nat,
                                           latestAppointments: seq<Appointment>)

  /** The first loop of doctorDashboard: earnings += amount for each completed or paid
      appointment. */
  method SumEarnings(mine: seq<Appointment>) returns (earnings: int)
    ensures earnings == EarningsOf(mine)
  {
    earnings := 0;
    var i := 0;
    while i < |mine|
      invariant 0 <= i <= |mine|
      invariant earnings == EarningsOf(mine[..i])
    {
      EarningsStep(mine, i);
      if mine[i].isCompleted || mine[i].payment {
        earnings := earnings + mine[i].amount;
      }
      i := i + 1;
    }
    assert mine[..|mine|] == mine;
  }

  /** The second loop of doctorDashboard: each user id pushed once, in first-seen order. */
  method CollectPatients(mine: seq<Appointment>) returns (patients: seq<string>)
    ensures patients == Dedup(UserIds(mine))
  {
    patients := [];
    var i := 0;
    while i < |mine|
      invariant 0 <= i <= |mine|
      invariant patients == Dedup(UserIds(mine[..i]))
    {
      PatientsStep(mine, i);
      if mine[i].userId !in patients {
        patients := patients + [mine[i].userId];
      }
      i := i + 1;
    }
    assert mine[..|mine|] == mine;
  }

  /** doctorDashboard: the earnings, the number of appointments and of distinct patients, and
      the appointments latest first. */
  method DoctorDashboard(appts: seq<Appointment>, docId: string) returns (dash: DoctorDashData)
    ensures var mine := OfDoctor(appts, docId);
            dash.earnings == EarningsOf(mine)
            && dash.appointments == |mine|
            && dash.patients == |set a | a in mine :: a.userId|
            && dash.latestAppointments == Reverse(mine)
  {
    var mine := OfDoctor(appts, docId);
    var earnings := SumEarnings(mine);
    var patients := CollectPatients(mine);
    DistinctPatients(mine);
    dash := DoctorDashData(earnings, |mine|, |patients|, Reverse(mine));
  }

  /** appointmentHistory: the doctor's completed, not cancelled appointments, in order. */
  function AppointmentHistory(appts: seq<Appointment>, docId: string): (r: seq<Appointment>)
    ensures forall a :: a in r <==> a in appts && a.docId == docId && a.isCompleted && !a.cancelled
    ensures |r| <= |appts|
  {
    Filter(appts, (a: Appointment) => a.docId == docId && a.isCompleted && !a.cancelled)
  }

  /** Completing an appointment of the doctor that is not cancelled puts it into the history. */
  lemma CompletedJoinsHistory(appts: seq<Appointment>, i: nat, docId: string)
    requires i < |appts| && appts[i].docId == docId && !appts[i].cancelled
    ensures Completed(appts[i]) in AppointmentHistory(appts[i := Completed(appts[i])], docId)
  {
    assert appts[i := Completed(appts[i])][i] == Completed(appts[i]);
  }

  /** changePassword: both passwords given, the doctor found, the current password matching
      (matches is the hash comparison); newHash is the new password's hash. */
  method ChangePassword(db: Store, docId: string, currentPassword: string, newPassword: string,
                        matches: (string, string) -> bool, newHash: string) returns (reply: Reply)
    requires db.Valid()
    modifies db
    ensures db.Valid()
    ensures db.appointments == old(db.appointments) && db.users == old(db.users)
    ensures currentPassword == "" || newPassword == "" ==>
              reply == Fail("Both current and new password are required") && db.doctors == old(db.doctors)
    ensures currentPassword != "" && newPassword != "" && DoctorIndex(old(db.doctors), docId).None? ==>
              reply == Fail("Doctor not found") && db.doctors == old(db.doctors)
    ensures currentPassword != "" && newPassword != "" && DoctorIndex(old(db.doctors), docId).Some? ==>
              var k := DoctorIndex(old(db.doctors), docId).value;
              var d := old(db.doctors)[k];
              if !matches(currentPassword, d.passwordHash) then
                reply == Fail("Current password is incorrect") && db.doctors == old(db.doctors)
              else
                reply == Ok("Password updated successfully")
                && db.doctors == old(db.doctors)[k := d.(passwordHash := newHash)]
  {
    if currentPassword == "" || newPassword == "" {
      return Fail("Both current and new password are required");
    }
    var found := DoctorIndex(db.doctors, docId);
    if found.None? {
      return Fail("Doctor not found");
    }
    var k := found.value;
    var d := db.doctors[k];
    if !matches(currentPassword, d.passwordHash) {
      return Fail("Current password is incorrect");
    }
    ReplaceDoctorKeepsValid(db.doctors, k, d.(passwordHash := newHash));
    db.doctors := db.doctors[k := d.(passwordHash := newHash)];
    reply := Ok("Password updated successfully");
  }
}
