/** The three record kinds of the clinic: doctors (with their slot ledger and day off),
    appointments (with their independent status flags) and patient accounts, with the
    defaults their schemas give a fresh record. */
module Models {
  import opened Collections
  import opened SlotLedger

  /** A timestamp in milliseconds since the epoch (Date.now()). */
  type Millis = int

  datatype Doctor = Doctor(
    id: string,
    name: string,
    nameExtension: string,
    email: string,
    passwordHash: string,
    image: string,
    speciality: string,
    degree: string,
    experience: string,
    about: string,
    available: bool,
    fees: int,
    slotsBooked: Ledger,
    address: string,
    date: Millis,
    licenseId: string,
    dayOff: string,
    isArchived: bool,
    archivedAt: Option<Millis>)

  /** A doctor record as the schema creates it: available, an empty slots_booked object (no
      date key at all), no day off, not archived. */
  function NewDoctor(id: string, name: string, nameExtension: string, email: string,
                     passwordHash: string, image: string, speciality: string, degree: string,
                     experience: string, about: string, fees: int, address: string,
                     date: Millis, licenseId: string): (d: Doctor)
    ensures d.available && d.dayOff == "" && !d.isArchived && d.archivedAt.None?
    ensures d.slotsBooked == map[]
    ensures forall day, time :: !IsTaken(d.slotsBooked, day, time)
    ensures WellFormed(d.slotsBooked)
    ensures d.id == id && d.email == email && d.fees == fees
  {
    Doctor(id, name, nameExtension, email, passwordHash, image, speciality, degree, experience,
           about, true, fees, map[], address, date, licenseId, "", false, None)
  }

  /** The availability toggle of the admin and doctor panels: only `available` changes. */
  function Toggled(d: Doctor): (r: Doctor)
    ensures r.available == !d.available && r.(available := d.available) == d
  {
    d.(available := !d.available)
  }

  /** Toggling twice restores the doctor. */
  lemma ToggleTwice(d: Doctor)
    ensures Toggled(Toggled(d)) == d
  {
  }

  /** The patient data copied into an appointment when it is booked. */
  datatype UserSnapshot = UserSnapshot(firstName: string, middleName: string, lastName: string,
                                       email: string, dob: string)

  /** The doctor data copied into an appointment when it is booked. */
  datatype DocSnapshot = DocSnapshot(name: string, nameExtension: string, email: string,
                                     speciality: string, degree: string, fees: int)

  function SnapshotOfDoctor(d: Doctor): (s: DocSnapshot)
    ensures s.fees == d.fees && s.email == d.email && s.name == d.name
  {
    DocSnapshot(d.name, d.nameExtension, d.email, d.speciality, d.degree, d.fees)
  }

  /** Who cancelled an appointment. */
  datatype Actor = ByUser | ByDoctor | ByAdmin

  datatype Appointment = Appointment(
    id: string,
    userId: string,
    docId: string,
    slotDate: string,
    slotTime: string,
    userData: UserSnapshot,
    docData: DocSnapshot,
    amount: int,
    date: Millis,
    appointmentReason: string,
    cancelled: bool,
    cancellationReason: string,
    cancelledBy: string,
    payment: bool,
    isCompleted: bool,
    isRead: bool,
    consultationSummary: string)

  /** An appointment as the schema creates it: every status flag false and every defaulted
      text empty. */
  function NewAppointment(id: string, userId: string, docId: string, slotDate: string,
                          slotTime: string, userData: UserSnapshot, docData: DocSnapshot,
                          amount: int, date: Millis, reason: string): (a: Appointment)
    ensures !a.cancelled && !a.payment && !a.isCompleted && !a.isRead
    ensures a.cancellationReason == "" && a.cancelledBy == "" && a.consultationSummary == ""
    ensures a.appointmentReason == reason
    ensures a.id == id && a.userId == userId && a.docId == docId
    ensures a.slotDate == slotDate && a.slotTime == slotTime && a.amount == amount
  {
    Appointment(id, userId, docId, slotDate, slotTime, userData, docData, amount, date, reason,
                false, "", "", false, false, false, "")
  }

  /** The reason recorded when the canceller gives none. */
  function DefaultReason(actor: Actor): string {
    match actor
    case ByUser => "Cancelled by patient"
    case ByDoctor => "Cancelled by doctor"
    case ByAdmin => "Cancelled by admin"
  }

  /** The cancelledBy value each path writes. */
  function ActorName(actor: Actor): string {
    match actor
    case ByUser => "user"
    case ByDoctor => "doctor"
    case ByAdmin => "admin"
  }

  /** The cancellation update { cancelled: true, cancellationReason: reason || default,
      cancelledBy }: exactly these three fields change. */
  function Cancelled(a: Appointment, reason: string, actor: Actor): (r: Appointment)
    ensures r.cancelled && r.cancelledBy == ActorName(actor)
    ensures r.cancellationReason != ""
    ensures reason != "" ==> r.cancellationReason == reason
    ensures reason == "" ==> r.cancellationReason == DefaultReason(actor)
    ensures r.(cancelled := a.cancelled, cancellationReason := a.cancellationReason,
               cancelledBy := a.cancelledBy) == a
  {
    a.(cancelled := true,
       cancellationReason := if reason != "" then reason else DefaultReason(actor),
       cancelledBy := ActorName(actor))
  }

  /** The three cancellers leave distinguishable records. */
  lemma ActorNamesDistinct(x: Actor, y: Actor)
    requires x != y
    ensures ActorName(x) != ActorName(y) && DefaultReason(x) != DefaultReason(y)
  {
  }

  /** The completion update { isCompleted: true }: nothing else changes. */
  function Completed(a: Appointment): (r: Appointment)
    ensures r.isCompleted && r.(isCompleted := a.isCompleted) == a
  {
    a.(isCompleted := true)
  }

  /** Cancellation and completion are independent: the records admit both, in either order. */
  lemma CancelAndCompleteCommute(a: Appointment, reason: string, actor: Actor)
    ensures Completed(Cancelled(a, reason, actor)) == Cancelled(Completed(a), reason, actor)
    ensures Completed(Cancelled(a, reason, actor)).cancelled
    ensures Completed(Cancelled(a, reason, actor)).isCompleted
  {
  }

  /** A patient account's approval status. */
  datatype ApprovalStatus = Pending | Approved | Declined | Blocked

  function StatusName(s: ApprovalStatus): string {
    match s
    case Pending => "pending"
    case Approved => "approved"
    case Declined => "declined"
    case Blocked => "blocked"
  }

  datatype User = User(
    id: string,
    firstName: string,
    middleName: string,
    lastName: string,
    email: string,
    passwordHash: string,
    dob: string,
    validId: string,
    approvalStatus: ApprovalStatus,
    isArchived: bool,
    archivedAt: Option<Millis>,
    resetToken: Option<string>,
    resetExpires: Option<Millis>)

  function SnapshotOfUser(u: User): (s: UserSnapshot)
    ensures s.firstName == u.firstName && s.middleName == u.middleName
    ensures s.lastName == u.lastName && s.email == u.email
  {
    UserSnapshot(u.firstName, u.middleName, u.lastName, u.email, u.dob)
  }

  /** Doctor ids and emails are unique (email carries a unique index) and no ledger lists
      a time twice. */
  predicate DoctorsValid(ds: seq<Doctor>) {
    (forall i, j :: 0 <= i < j < |ds| ==> ds[i].id != ds[j].id && ds[i].email != ds[j].email)
    && (forall i :: 0 <= i < |ds| ==> WellFormed(ds[i].slotsBooked))
  }

  predicate AppointmentsValid(as_: seq<Appointment>) {
    forall i, j :: 0 <= i < j < |as_| ==> as_[i].id != as_[j].id
  }

  predicate UsersValid(us: seq<User>) {
    forall i, j :: 0 <= i < j < |us| ==> us[i].id != us[j].id
  }

  /** Replacing one doctor by a record with the same id and email and a well-formed ledger
      keeps the collection valid. */
  lemma ReplaceDoctorKeepsValid(ds: seq<Doctor>, k: nat, d: Doctor)
    requires DoctorsValid(ds) && k < |ds|
    requires d.id == ds[k].id && d.email == ds[k].email && WellFormed(d.slotsBooked)
    ensures DoctorsValid(ds[k := d])
  {
  }

  /** Replacing one appointment by a record with the same id keeps the ids unique. */
  lemma ReplaceAppointmentKeepsValid(as_: seq<Appointment>, k: nat, a: Appointment)
    requires AppointmentsValid(as_) && k < |as_| && a.id == as_[k].id
    ensures AppointmentsValid(as_[k := a])
  {
  }

  /** Replacing one user by a record with the same id keeps the ids unique. */
  lemma ReplaceUserKeepsValid(us: seq<User>, k: nat, u: User)
    requires UsersValid(us) && k < |us| && u.id == us[k].id
    ensures UsersValid(us[k := u])
  {
  }

  /** Appending an appointment whose id is new keeps the ids unique. */
  lemma AppendAppointmentKeepsValid(as_: seq<Appointment>, a: Appointment)
    requires AppointmentsValid(as_)
    requires forall k :: 0 <= k < |as_| ==> as_[k].id != a.id
    ensures AppointmentsValid(as_ + [a])
  {
  }

  /** Appending a user whose id is new keeps the ids unique. */
  lemma AppendUserKeepsValid(us: seq<User>, u: User)
    requires UsersValid(us)
    requires forall k :: 0 <= k < |us| ==> us[k].id != u.id
    ensures UsersValid(us + [u])
  {
  }

  /** Replacing one doctor by a record with the same id, an email no other doctor has and a
      well-formed ledger keeps the collection valid. */
  lemma ReplaceDoctorNewEmailKeepsValid(ds: seq<Doctor>, k: nat, d: Doctor)
    requires DoctorsValid(ds) && k < |ds|
    requires d.id == ds[k].id && WellFormed(d.slotsBooked)
    requires forall j :: 0 <= j < |ds| && j != k ==> ds[j].email != d.email
    ensures DoctorsValid(ds[k := d])
  {
  }
}
