/** The database: the doctor, appointment and user collections, each a sequence of records
    in natural (insertion) order. findById and findOne return the first record that matches. */
module ClinicStore {
  import opened Collections
  import opened Models

  /** The JSON reply of a request: its HTTP status, the success flag and the message. */
  datatype Reply = Reply(code: int, success: bool, message: string)

  function Ok(message: string): Reply {
    Reply(200, true, message)
  }

  /** A failure reported with res.json, whose status stays 200. */
  function Fail(message: string): Reply {
    Reply(200, false, message)
  }

  /** A failure reported with an explicit HTTP status. */
  function ErrorReply(code: int, message: string): Reply {
    Reply(code, false, message)
  }

  class Store {
    var doctors: seq<Doctor>
    var appointments: seq<Appointment>
    var users: seq<User>

    /** Ids are unique in every collection, doctor emails are unique, and no ledger lists a
        time twice. */
    ghost predicate Valid()
      reads this
    {
      DoctorsValid(doctors) && AppointmentsValid(appointments) && UsersValid(users)
    }

    constructor ()
      ensures Valid()
      ensures doctors == [] && appointments == [] && users == []
    {
      doctors := [];
      appointments := [];
      users := [];
    }
  }

  /** findById on the doctors. */
  function DoctorIndex(ds: seq<Doctor>, id: string): (r: Option<nat>)
    ensures r.Some? ==> r.value < |ds| && ds[r.value].id == id
    ensures r.None? <==> forall k :: 0 <= k < |ds| ==> ds[k].id != id
  {
    FindFirst(ds, (d: Doctor) => d.id == id)
  }

  /** findById on the appointments. */
  function AppointmentIndex(as_: seq<Appointment>, id: string): (r: Option<nat>)
    ensures r.Some? ==> r.value < |as_| && as_[r.value].id == id
    ensures r.None? <==> forall k :: 0 <= k < |as_| ==> as_[k].id != id
  {
    FindFirst(as_, (a: Appointment) => a.id == id)
  }

  /** findById on the users. */
  function UserIndex(us: seq<User>, id: string): (r: Option<nat>)
    ensures r.Some? ==> r.value < |us| && us[r.value].id == id
    ensures r.None? <==> forall k :: 0 <= k < |us| ==> us[k].id != id
  {
    FindFirst(us, (u: User) => u.id == id)
  }

  /** findOne({ email }) on the users: the first account with that email. */
  function UserByEmail(us: seq<User>, email: string): (r: Option<nat>)
    ensures r.Some? ==> r.value < |us| && us[r.value].email == email
    ensures r.Some? ==> forall k :: 0 <= k < r.value ==> us[k].email != email
    ensures r.None? <==> forall k :: 0 <= k < |us| ==> us[k].email != email
  {
    FindFirst(us, (u: User) => u.email == email)
  }

  /** With unique ids, looking a stored doctor up by its id finds exactly that doctor. */
  lemma DoctorIndexOfStored(ds: seq<Doctor>, k: nat)
    requires DoctorsValid(ds) && k < |ds|
    ensures DoctorIndex(ds, ds[k].id) == Some(k)
  {
  }

  /** With unique ids, looking a stored appointment up by its id finds exactly that one. */
  lemma AppointmentIndexOfStored(as_: seq<Appointment>, k: nat)
    requires AppointmentsValid(as_) && k < |as_|
    ensures AppointmentIndex(as_, as_[k].id) == Some(k)
  {
  }
}
