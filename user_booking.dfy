/** The patient-facing appointment operations: booking a slot, cancelling it, paying for it,
    marking it read, and the two booked-slot queries. */
module UserBooking {
  import opened Collections
  import opened JsText
  import opened Calendar
  import opened SlotLedger
  import opened Models
  import opened ClinicStore
  import opened EmailService

  datatype BookingRequest = BookingRequest(userId: string, docId: string, slotDate: string,
                                           slotTime: string, reason: string)

  /** Why a booking is refused, in the order the checks run. DoctorMissing is the TypeError
      of reading `available` on a null doctor; SaveRejected is the schema's validation of the
      new appointment (a required string left empty, or no user to snapshot). */
  datatype BookingError = TooSoon | TooFar | AlreadyBooked | DoctorMissing | DoctorNotAvailable
                        | SlotNotAvailable | SaveRejected

  function BookingErrorMessage(e: BookingError): string {
    match e
    case TooSoon => "Appointments must be booked at least 5 days in advance"
    case TooFar => "Appointments cannot be booked more than 1 month in advance"
    case AlreadyBooked => "You already have an appointment scheduled at this time"
    case DoctorMissing => "Cannot read properties of null (reading 'available')"
    case DoctorNotAvailable => "Doctor Not Available"
    case SlotNotAvailable => "Slot Not Available"
    case SaveRejected => "appointment validation failed"
  }

  datatype BookingResult = Booked(notice: DoctorBookingMail) | Rejected(error: BookingError)

  /** The booking window on day numbers: at least five days ahead and not after maxDay (today
      plus one month). A key that names no day is an Invalid Date, for which both comparisons
      are false, so it passes. */
  function WindowCheck(slotDay: Option<int>, today: int, maxDay: int): (r: Option<BookingError>)
    ensures r.None? <==> slotDay.None? || today + 5 <= slotDay.value <= maxDay
    ensures r == Some(TooSoon) <==> slotDay.Some? && slotDay.value < today + 5
    ensures r == Some(TooFar) <==> slotDay.Some? && today + 5 <= slotDay.value && slotDay.value > maxDay
  {
    match slotDay
    case None => None
    case Some(day) =>
      if day - today < 5 then Some(TooSoon)
      else if day > maxDay then Some(TooFar)
      else None
  }

  /** An unparsable key escapes the window, however near or far. */
  lemma MalformedKeyPassesWindow(today: int, maxDay: int)
    ensures WindowCheck(SlotDay(""), today, maxDay).None?
    ensures WindowCheck(SlotDay("15_6"), today, maxDay).None?
    ensures WindowCheck(SlotDay(SlotKey(1, 1, 300000)), today, maxDay).None?
  {
    EmptyKeyNamesNoDay();
    KeyWithoutYearNamesNoDay();
    SlotDayOfKey(1, 1, 300000);
    FarYearNamesNoDay();
  }

  /** The duplicate-booking query { userId, slotDate, slotTime, cancelled: false }. */
  predicate HoldsSlot(a: Appointment, userId: string, date: string, time: string) {
    a.userId == userId && a.slotDate == date && a.slotTime == time && !a.cancelled
  }

  function ActiveBooking(appts: seq<Appointment>, userId: string, date: string, time: string): (r: Option<nat>)
    ensures r.None? <==> forall k :: 0 <= k < |appts| ==> !HoldsSlot(appts[k], userId, date, time)
    ensures r.Some? ==> r.value < |appts| && HoldsSlot(appts[r.value], userId, date, time)
  {
    FindFirst(appts, (a: Appointment) => HoldsSlot(a, userId, date, time))
  }

  /** The new appointment passes the schema: its required strings are non-empty and there is a
      user whose data it copies. */
  predicate SaveValid(users: seq<User>, req: BookingRequest) {
    req.userId != "" && req.docId != "" && req.slotDate != "" && req.slotTime != ""
    && UserIndex(users, req.userId).Some?
  }

  /** The booking window lets the slot date through. */
  predicate WindowOk(req: BookingRequest, today: int, maxDay: int) {
    WindowCheck(SlotDay(req.slotDate), today, maxDay).None?
  }

  /** The patient holds no active appointment at this date and time. */
  predicate NoDuplicate(appts: seq<Appointment>, req: BookingRequest) {
    ActiveBooking(appts, req.userId, req.slotDate, req.slotTime).None?
  }

  /** The requested doctor exists and is available. */
  predicate DoctorReady(doctors: seq<Doctor>, req: BookingRequest) {
    DoctorIndex(doctors, req.docId).Some? && doctors[DoctorIndex(doctors, req.docId).value].available
  }

  /** The requested doctor exists and already has the slot in the ledger. */
  predicate SlotTaken(doctors: seq<Doctor>, req: BookingRequest) {
    DoctorIndex(doctors, req.docId).Some?
    && IsTaken(doctors[DoctorIndex(doctors, req.docId).value].slotsBooked, req.slotDate, req.slotTime)
  }

  /** Everything a booking needs, in no particular order. */
  predicate BookingAllowed(doctors: seq<Doctor>, appts: seq<Appointment>, users: seq<User>,
                           req: BookingRequest, today: int, maxDay: int)
  {
    WindowOk(req, today, maxDay) && NoDuplicate(appts, req) && DoctorReady(doctors, req)
    && !SlotTaken(doctors, req) && SaveValid(users, req)
  }

  /** The checks of bookAppointment in the order they run (the window, the duplicate, the
      doctor, its availability, the ledger, the save); the first that fails decides. */
  function BookingCheck(doctors: seq<Doctor>, appts: seq<Appointment>, users: seq<User>,
                        req: BookingRequest, today: int, maxDay: int): (r: Option<BookingError>)
    ensures r.None? <==> BookingAllowed(doctors, appts, users, req, today, maxDay)
    ensures !WindowOk(req, today, maxDay) ==> r == WindowCheck(SlotDay(req.slotDate), today, maxDay)
    ensures r == Some(AlreadyBooked) <==> WindowOk(req, today, maxDay) && !NoDuplicate(appts, req)
    ensures r == Some(DoctorMissing) <==>
              WindowOk(req, today, maxDay) && NoDuplicate(appts, req)
              && DoctorIndex(doctors, req.docId).None?
    ensures r == Some(DoctorNotAvailable) <==>
              WindowOk(req, today, maxDay) && NoDuplicate(appts, req)
              && DoctorIndex(doctors, req.docId).Some? && !DoctorReady(doctors, req)
    ensures r == Some(SlotNotAvailable) <==>
              WindowOk(req, today, maxDay) && NoDuplicate(appts, req) && DoctorReady(doctors, req)
              && SlotTaken(doctors, req)
    ensures r == Some(SaveRejected) <==>
              WindowOk(req, today, maxDay) && NoDuplicate(appts, req) && DoctorReady(doctors, req)
              && !SlotTaken(doctors, req) && !SaveValid(users, req)
  {
    var window := WindowCheck(SlotDay(req.slotDate), today, maxDay);
    if window.Some? then window
    else if ActiveBooking(appts, req.userId, req.slotDate, req.slotTime).Some? then Some(AlreadyBooked)
    else match DoctorIndex(doctors, req.docId)
      case None => Some(DoctorMissing)
      case Some(k) =>
        if !doctors[k].available then Some(DoctorNotAvailable)
        else if IsTaken(doctors[k].slotsBooked, req.slotDate, req.slotTime) then Some(SlotNotAvailable)
        else if !SaveValid(users, req) then Some(SaveRejected)
        else None
  }

  /** A slot already in the doctor's ledger is refused once the earlier checks pass. */
  lemma TakenSlotRefused(doctors: seq<Doctor>, appts: seq<Appointment>, users: seq<User>,
                         req: BookingRequest, today: int, maxDay: int)
    requires DoctorIndex(doctors, req.docId).Some?
    requires IsTaken(doctors[DoctorIndex(doctors, req.docId).value].slotsBooked,
                     req.slotDate, req.slotTime)
    ensures BookingCheck(doctors, appts, users, req, today, maxDay).Some?
    ensures WindowCheck(SlotDay(req.slotDate), today, maxDay).None?
            && ActiveBooking(appts, req.userId, req.slotDate, req.slotTime).None?
            && doctors[DoctorIndex(doctors, req.docId).value].available
            ==> BookingCheck(doctors, appts, users, req, today, maxDay) == Some(SlotNotAvailable)
  {
  }

  /** The doctors after a successful booking: the chosen doctor's ledger gains the slot. */
  function BookedDoctors(doctors: seq<Doctor>, req: BookingRequest): (r: seq<Doctor>)
    requires DoctorIndex(doctors, req.docId).Some?
    ensures |r| == |doctors|
    ensures var k := DoctorIndex(doctors, req.docId).value;
            r[k].slotsBooked == Reserve(doctors[k].slotsBooked, req.slotDate, req.slotTime)
            && r[k].(slotsBooked := doctors[k].slotsBooked) == doctors[k]
            && forall j :: 0 <= j < |doctors| && j != k ==> r[j] == doctors[j]
  {
    var k := DoctorIndex(doctors, req.docId).value;
    doctors[k := doctors[k].(slotsBooked := Reserve(doctors[k].slotsBooked, req.slotDate, req.slotTime))]
  }

  /** The appointment a successful booking stores: the doctor's fee as amount, the requested
      slot, the reason ('' when none is given), and both snapshots. */
  function BookingRecord(doctors: seq<Doctor>, users: seq<User>, req: BookingRequest,
                         now: Millis, newId: string): (a: Appointment)
    requires DoctorIndex(doctors, req.docId).Some? && UserIndex(users, req.userId).Some?
    ensures a.amount == doctors[DoctorIndex(doctors, req.docId).value].fees
    ensures a.id == newId && a.userId == req.userId && a.docId == req.docId
    ensures a.slotDate == req.slotDate && a.slotTime == req.slotTime
    ensures a.appointmentReason == req.reason && a.date == now
    ensures !a.cancelled && !a.payment && !a.isCompleted && !a.isRead
  {
    var doc := doctors[DoctorIndex(doctors, req.docId).value];
    var user := users[UserIndex(users, req.userId).value];
    NewAppointment(newId, req.userId, req.docId, req.slotDate, req.slotTime,
                   SnapshotOfUser(user), SnapshotOfDoctor(doc), doc.fees, now, req.reason)
  }

  /** Updating one doctor without changing ids leaves every findById answer as it was. */
  lemma DoctorIndexAfterUpdate(ds: seq<Doctor>, k: nat, d: Doctor, id: string)
    requires k < |ds| && d.id == ds[k].id
    ensures DoctorIndex(ds[k := d], id) == DoctorIndex(ds, id)
  {
    assert forall j :: 0 <= j < |ds| ==> ds[k := d][j].id == ds[j].id;
  }

  /** Once a slot is booked, every later request for the same doctor, date and time is
      refused, whoever makes it. */
  lemma SlotBookedOnce(doctors: seq<Doctor>, appts: seq<Appointment>, users: seq<User>,
                       req: BookingRequest, today: int, maxDay: int, now: Millis, newId: string,
                       req2: BookingRequest, today2: int, maxDay2: int)
    requires BookingCheck(doctors, appts, users, req, today, maxDay).None?
    requires req2.docId == req.docId && req2.slotDate == req.slotDate && req2.slotTime == req.slotTime
    ensures BookingCheck(BookedDoctors(doctors, req),
                         appts + [BookingRecord(doctors, users, req, now, newId)],
                         users, req2, today2, maxDay2).Some?
  {
    var k := DoctorIndex(doctors, req.docId).value;
    var after := BookedDoctors(doctors, req);
    DoctorIndexAfterUpdate(doctors, k, after[k], req.docId);
    assert after == doctors[k := after[k]];
    TakenSlotRefused(after, appts + [BookingRecord(doctors, users, req, now, newId)], users,
                     req2, today2, maxDay2);
  }

  /** Once a patient holds a slot, the same patient cannot book the same date and time again,
      with any doctor, until it is cancelled. */
  lemma NoDoubleBooking(doctors: seq<Doctor>, appts: seq<Appointment>, users: seq<User>,
                        req: BookingRequest, today: int, maxDay: int, now: Millis, newId: string,
                        req2: BookingRequest, doctors2: seq<Doctor>, today2: int, maxDay2: int)
    requires BookingCheck(doctors, appts, users, req, today, maxDay).None?
    requires req2.userId == req.userId && req2.slotDate == req.slotDate && req2.slotTime == req.slotTime
    ensures BookingCheck(doctors2, appts + [BookingRecord(doctors, users, req, now, newId)],
                         users, req2, today2, maxDay2).Some?
  {
    var appts' := appts + [BookingRecord(doctors, users, req, now, newId)];
    assert HoldsSlot(appts'[|appts|], req2.userId, req2.slotDate, req2.slotTime);
  }

  /** The refusals of bookAppointment before the ledger push, each check as the handler runs
      it; None when the request gets as far as the push. */
  method CheckBooking(doctors: seq<Doctor>, appts: seq<Appointment>, users: seq<User>,
                      req: BookingRequest, today: int, maxDay: int)
    returns (error: Option<BookingError>)
    ensures error.None? <==> WindowOk(req, today, maxDay) && NoDuplicate(appts, req)
                             && DoctorReady(doctors, req) && !SlotTaken(doctors, req)
    ensures error.Some? ==> error == BookingCheck(doctors, appts, users, req, today, maxDay)
  {
    var window := WindowCheck(SlotDay(req.slotDate), today, maxDay);
    if window.Some? {
      return window;
    }
    if ActiveBooking(appts, req.userId, req.slotDate, req.slotTime).Some? {
      return Some(AlreadyBooked);
    }
    var found := DoctorIndex(doctors, req.docId);
    if found.None? {
      return Some(DoctorMissing);
    }
    var doc := doctors[found.value];
    if !doc.available {
      return Some(DoctorNotAvailable);
    }
    if req.slotDate in doc.slotsBooked && req.slotTime in doc.slotsBooked[req.slotDate] {
      return Some(SlotNotAvailable);
    }
    error := None;
  }

  /** Past the ledger check only the save can still refuse the booking. */
  lemma BookingCheckAtSave(doctors: seq<Doctor>, appts: seq<Appointment>, users: seq<User>,
                           req: BookingRequest, today: int, maxDay: int)
    requires WindowOk(req, today, maxDay) && NoDuplicate(appts, req)
    requires DoctorReady(doctors, req) && !SlotTaken(doctors, req)
    ensures BookingCheck(doctors, appts, users, req, today, maxDay)
            == if SaveValid(users, req) then None else Some(SaveRejected)
  {
  }

  /** bookAppointment: the checks in order, the in-place push on the doctor's ledger, then the
      appointment save and the ledger write. */
  method BookAppointment(db: Store, req: BookingRequest, today: int, maxDay: int, now: Millis,
                         newId: string) returns (result: BookingResult)
    requires db.Valid()
    requires AppointmentIndex(db.appointments, newId).None?
    modifies db
    ensures db.Valid()
    ensures db.users == old(db.users)
    ensures var check := BookingCheck(old(db.doctors), old(db.appointments), old(db.users), req,
                                      today, maxDay);
            if check.Some? then
              result == Rejected(check.value)
              && db.doctors == old(db.doctors) && db.appointments == old(db.appointments)
            else
              var a := BookingRecord(old(db.doctors), old(db.users), req, now, newId);
              var doc := old(db.doctors)[DoctorIndex(old(db.doctors), req.docId).value];
              result == Booked(DoctorAppointmentNotification(doc.email, a))
              && db.doctors == BookedDoctors(old(db.doctors), req)
              && db.appointments == old(db.appointments) + [a]
  {
    var error := CheckBooking(db.doctors, db.appointments, db.users, req, today, maxDay);
    if error.Some? {
      return Rejected(error.value);
    }
    BookingCheckAtSave(db.doctors, db.appointments, db.users, req, today, maxDay);
    var k := DoctorIndex(db.doctors, req.docId).value;
    var doc := db.doctors[k];
    var slots := PushSlot(doc.slotsBooked, req.slotDate, req.slotTime);
    if !SaveValid(db.users, req) {
      return Rejected(SaveRejected);
    }
    var a := BookingRecord(db.doctors, db.users, req, now, newId);
    SaveBooking(db, req, k, slots, a);
    result := Booked(DoctorAppointmentNotification(doc.email, a));
  }

  /** The push onto slots_booked: the date's list is created when missing, then the time is
      appended to it. */
  method PushSlot(l: Ledger, date: string, time: string) returns (slots: Ledger)
    ensures slots == Reserve(l, date, time)
  {
    slots := l;
    if date !in slots {
      slots := slots[date := []];
    }
    slots := slots[date := slots[date] + [time]];
  }

  /** appointmentModel(...).save() followed by the write of the pushed ledger. */
  method SaveBooking(db: Store, req: BookingRequest, k: nat, slots: Ledger, a: Appointment)
    requires db.Valid()
    requires DoctorIndex(db.doctors, req.docId) == Some(k)
    requires !IsTaken(db.doctors[k].slotsBooked, req.slotDate, req.slotTime)
    requires slots == Reserve(db.doctors[k].slotsBooked, req.slotDate, req.slotTime)
    requires AppointmentIndex(db.appointments, a.id).None?
    modifies db
    ensures db.Valid()
    ensures db.users == old(db.users)
    ensures db.doctors == BookedDoctors(old(db.doctors), req)
    ensures db.appointments == old(db.appointments) + [a]
  {
    var doc := db.doctors[k];
    var updated := doc.(slotsBooked := slots);
    assert db.doctors[k := updated] == BookedDoctors(db.doctors, req);
    AppendAppointmentKeepsValid(db.appointments, a);
    db.appointments := db.appointments + [a];
    ReserveKeepsWellFormed(doc.slotsBooked, req.slotDate, req.slotTime);
    ReplaceDoctorKeepsValid(db.doctors, k, updated);
    db.doctors := db.doctors[k := updated];
  }

  const NullAppointmentUserId := "Cannot read properties of null (reading 'userId')"
  const NullDoctorSlots := "Cannot read properties of null (reading 'slots_booked')"
  const UndefinedDateFilter := "Cannot read properties of undefined (reading 'filter')"
  const UnauthorizedAction := "Unauthorized action"

  /** cancelAppointment: the owner check, the cancellation write, then the slot release; a
      missing doctor or date list throws after the appointment is already cancelled. */
  method CancelAppointment(db: Store, userId: string, appointmentId: string, reason: string)
    returns (reply: Reply)
    requires db.Valid()
    modifies db
    ensures db.Valid()
    ensures db.users == old(db.users)
    ensures AppointmentIndex(old(db.appointments), appointmentId).None? ==>
              reply == Fail(NullAppointmentUserId)
              && db.appointments == old(db.appointments) && db.doctors == old(db.doctors)
    ensures AppointmentIndex(old(db.appointments), appointmentId).Some? ==>
              var i := AppointmentIndex(old(db.appointments), appointmentId).value;
              var a := old(db.appointments)[i];
              if a.userId != userId then
                reply == Fail(UnauthorizedAction)
                && db.appointments == old(db.appointments) && db.doctors == old(db.doctors)
              else
                db.appointments == old(db.appointments)[i := Cancelled(a, reason, ByUser)]
                && if DoctorIndex(old(db.doctors), a.docId).None? then
                     reply == Fail(NullDoctorSlots) && db.doctors == old(db.doctors)
                   else
                     var j := DoctorIndex(old(db.doctors), a.docId).value;
                     var doc := old(db.doctors)[j];
                     if a.slotDate !in doc.slotsBooked then
                       reply == Fail(UndefinedDateFilter) && db.doctors == old(db.doctors)
                     else
                       reply == Ok("Appointment Cancelled")
                       && db.doctors == old(db.doctors)[j := doc.(slotsBooked :=
                                          Release(doc.slotsBooked, a.slotDate, a.slotTime))]
  {
    var found := AppointmentIndex(db.appointments, appointmentId);
    if found.None? {
      return Fail(NullAppointmentUserId);
    }
    var i := found.value;
    var a := db.appointments[i];
    if a.userId != userId {
      return Fail(UnauthorizedAction);
    }
    ReplaceAppointmentKeepsValid(db.appointments, i, Cancelled(a, reason, ByUser));
    db.appointments := db.appointments[i := Cancelled(a, reason, ByUser)];
    var docFound := DoctorIndex(db.doctors, a.docId);
    if docFound.None? {
      return Fail(NullDoctorSlots);
    }
    var j := docFound.value;
    var doc := db.doctors[j];
    var slots := doc.slotsBooked;
    if a.slotDate !in slots {
      return Fail(UndefinedDateFilter);
    }
    slots := slots[a.slotDate := Without(slots[a.slotDate], a.slotTime)];
    ReleaseKeepsWellFormed(doc.slotsBooked, a.slotDate, a.slotTime);
    ReplaceDoctorKeepsValid(db.doctors, j, doc.(slotsBooked := slots));
    db.doctors := db.doctors[j := doc.(slotsBooked := slots)];
    reply := Ok("Appointment Cancelled");
  }

  const CancelledOrNotFound := "Appointment Cancelled or not found"

  /** The order options paymentRazorpay sends: the amount in the currency's smallest unit and
      the appointment id as receipt. */
  datatype RazorpayOptions = RazorpayOptions(amount: int, receipt: string)

  /** The payment guard: the appointment exists and is not cancelled. */
  predicate Payable(appts: seq<Appointment>, appointmentId: string) {
    AppointmentIndex(appts, appointmentId).Some?
    && !appts[AppointmentIndex(appts, appointmentId).value].cancelled
  }

  function RazorpayOrder(appts: seq<Appointment>, appointmentId: string): (r: Option<RazorpayOptions>)
    ensures r.Some? <==> Payable(appts, appointmentId)
    ensures r.Some? ==> (r.value.receipt == appointmentId
              && r.value.amount == appts[AppointmentIndex(appts, appointmentId).value].amount * 100)
  {
    if Payable(appts, appointmentId) then
      Some(RazorpayOptions(appts[AppointmentIndex(appts, appointmentId).value].amount * 100, appointmentId))
    else None
  }

  /** The checkout session paymentStripe requests. */
  datatype StripeSession = StripeSession(unitAmount: int, successUrl: string, cancelUrl: string)

  function VerifyUrl(origin: string, success: string, appointmentId: string): string {
    origin + "/verify?success=" + success + "&appointmentId=" + appointmentId
  }

  function StripeCheckout(appts: seq<Appointment>, appointmentId: string, origin: string)
    : (r: Option<StripeSession>)
    ensures r.Some? <==> Payable(appts, appointmentId)
    ensures r.Some? ==>
              var a := appts[AppointmentIndex(appts, appointmentId).value];
              r.value.unitAmount == a.amount * 100
              && r.value.successUrl == VerifyUrl(origin, "true", a.id)
              && r.value.cancelUrl == VerifyUrl(origin, "false", a.id)
  {
    if Payable(appts, appointmentId) then
      var a := appts[AppointmentIndex(appts, appointmentId).value];
      Some(StripeSession(a.amount * 100, VerifyUrl(origin, "true", a.id), VerifyUrl(origin, "false", a.id)))
    else None
  }

  /** A cancelled appointment is never charged, through either gateway. */
  lemma CancelledIsNotCharged(appts: seq<Appointment>, i: nat, origin: string)
    requires AppointmentsValid(appts) && i < |appts| && appts[i].cancelled
    ensures RazorpayOrder(appts, appts[i].id).None?
    ensures StripeCheckout(appts, appts[i].id, origin).None?
  {
    AppointmentIndexOfStored(appts, i);
  }

  /** The two redirect addresses differ, so the verify step can tell a paid checkout from an
      abandoned one. */
  lemma VerifyUrlsDiffer(origin: string, appointmentId: string)
    ensures VerifyUrl(origin, "true", appointmentId) != VerifyUrl(origin, "false", appointmentId)
  {
    var t := VerifyUrl(origin, "true", appointmentId);
    var f := VerifyUrl(origin, "false", appointmentId);
    var k := |origin + "/verify?success="|;
    assert t[k] == 't' && f[k] == 'f';
  }

  /** findByIdAndUpdate(id, { payment: true }): the first appointment with that id, if any,
      becomes paid; nothing else changes. */
  function MarkPaid(appts: seq<Appointment>, appointmentId: string): (r: seq<Appointment>)
    ensures |r| == |appts|
    ensures AppointmentIndex(appts, appointmentId).None? ==> r == appts
    ensures AppointmentIndex(appts, appointmentId).Some? ==>
              var i := AppointmentIndex(appts, appointmentId).value;
              r == appts[i := appts[i].(payment := true)]
  {
    match AppointmentIndex(appts, appointmentId)
    case None => appts
    case Some(i) => appts[i := appts[i].(payment := true)]
  }

  /** verifyStripe: the payment flag is set exactly when the redirect says success=true. The
      cancelled flag is not consulted. */
  method VerifyStripe(db: Store, appointmentId: string, success: string) returns (reply: Reply)
    requires db.Valid()
    modifies db
    ensures db.Valid()
    ensures db.doctors == old(db.doctors) && db.users == old(db.users)
    ensures success == "true" ==>
              reply == Ok("Payment Successful") && db.appointments == MarkPaid(old(db.appointments), appointmentId)
    ensures success != "true" ==>
              reply == Fail("Payment Failed") && db.appointments == old(db.appointments)
  {
    if success == "true" {
      var found := AppointmentIndex(db.appointments, appointmentId);
      if found.Some? {
        var i := found.value;
        ReplaceAppointmentKeepsValid(db.appointments, i, db.appointments[i].(payment := true));
      }
      db.appointments := MarkPaid(db.appointments, appointmentId);
      return Ok("Payment Successful");
    }
    reply := Fail("Payment Failed");
  }

  /** verifyRazorpay: the payment flag of the order's receipt is set exactly when the fetched
      order's status is 'paid'. */
  method VerifyRazorpay(db: Store, orderStatus: string, receipt: string) returns (reply: Reply)
    requires db.Valid()
    modifies db
    ensures db.Valid()
    ensures db.doctors == old(db.doctors) && db.users == old(db.users)
    ensures orderStatus == "paid" ==>
              reply == Ok("Payment Successful") && db.appointments == MarkPaid(old(db.appointments), receipt)
    ensures orderStatus != "paid" ==>
              reply == Fail("Payment Failed") && db.appointments == old(db.appointments)
  {
    if orderStatus == "paid" {
      var found := AppointmentIndex(db.appointments, receipt);
      if found.Some? {
        var i := found.value;
        ReplaceAppointmentKeepsValid(db.appointments, i, db.appointments[i].(payment := true));
      }
      db.appointments := MarkPaid(db.appointments, receipt);
      reply := Ok("Payment Successful");
    } else {
      reply := Fail("Payment Failed");
    }
  }

  /** markAppointmentRead: the owner check, then { isRead: true }. */
  method MarkAppointmentRead(db: Store, userId: string, appointmentId: string) returns (reply: Reply)
    requires db.Valid()
    modifies db
    ensures db.Valid()
    ensures db.doctors == old(db.doctors) && db.users == old(db.users)
    ensures AppointmentIndex(old(db.appointments), appointmentId).None? ==>
              reply == Fail(NullAppointmentUserId) && db.appointments == old(db.appointments)
    ensures AppointmentIndex(old(db.appointments), appointmentId).Some? ==>
              var i := AppointmentIndex(old(db.appointments), appointmentId).value;
              var a := old(db.appointments)[i];
              if a.userId != userId then
                reply == Fail(UnauthorizedAction) && db.appointments == old(db.appointments)
              else
                reply == Ok("Appointment marked as read")
                && db.appointments == old(db.appointments)[i := a.(isRead := true)]
  {
    var found := AppointmentIndex(db.appointments, appointmentId);
    if found.None? {
      return Fail(NullAppointmentUserId);
    }
    var i := found.value;
    var a := db.appointments[i];
    if a.userId != userId {
      return Fail(UnauthorizedAction);
    }
    ReplaceAppointmentKeepsValid(db.appointments, i, a.(isRead := true));
    db.appointments := db.appointments[i := a.(isRead := true)];
    reply := Ok("Appointment marked as read");
  }

  /** The range test of getUserBookedSlots as written: { $gte: startDate, $lte: endDate } on
      the "d_m_yyyy" strings, which compares them character by character. */
  predicate InStringRange(slotDate: string, startDate: string, endDate: string) {
    StrLe(startDate, slotDate) && StrLe(slotDate, endDate)
  }

  /** The three keys of the example below, as the booking page writes them. */
  lemma JanuaryKeys()
    ensures SlotKey(9, 1, 2026) == "9_1_2026"
    ensures SlotKey(1, 1, 2026) == "1_1_2026"
    ensures SlotKey(31, 1, 2026) == "31_1_2026"
  {
    assert NatToString(9) == "9";
    assert NatToString(1) == "1";
    assert NatToString(31) == "31";
    assert NatToString(2026) == "2026";
  }

  /** For a range within one month the string test misses a single-digit day: 9 January 2026
      lies between 1 and 31 January 2026, yet the query leaves it out. */
  lemma StringRangeMissesDate()
    ensures !InStringRange(SlotKey(9, 1, 2026), SlotKey(1, 1, 2026), SlotKey(31, 1, 2026))
    ensures InDayRange(SlotKey(9, 1, 2026), SlotKey(1, 1, 2026), SlotKey(31, 1, 2026))
  {
    assert !StrLe(SlotKey(9, 1, 2026), SlotKey(31, 1, 2026)) by {
      JanuaryKeys();
      assert !StrLe("9_1_2026", "31_1_2026");
    }
    assert InDayRange(SlotKey(9, 1, 2026), SlotKey(1, 1, 2026), SlotKey(31, 1, 2026)) by {
      MakeDaySameMonth(2026, 0, 1, 9);
      MakeDaySameMonth(2026, 0, 9, 31);
      DayRangeOfKeys(9, 1, 2026, 1, 1, 2026, 31, 1, 2026);
    }
  }

  /** The range test as intended: the day the slot key names lies between the days the two
      bounds name. A bound or key that names no day matches nothing. */
  predicate InDayRange(slotDate: string, startDate: string, endDate: string) {
    var d := SlotDay(slotDate);
    var lo := SlotDay(startDate);
    var hi := SlotDay(endDate);
    d.Some? && lo.Some? && hi.Some? && lo.value <= d.value <= hi.value
  }

  /** On keys of real dates the intended test is the chronological one. */
  lemma DayRangeOfKeys(d: int, m: int, y: int, d1: int, m1: int, y1: int, d2: int, m2: int, y2: int)
    requires MakeDay(Num(y), Num(m - 1), Num(d)).Some?
    requires MakeDay(Num(y1), Num(m1 - 1), Num(d1)).Some? && MakeDay(Num(y2), Num(m2 - 1), Num(d2)).Some?
    ensures InDayRange(SlotKey(d, m, y), SlotKey(d1, m1, y1), SlotKey(d2, m2, y2)) <==>
              MakeDay(Num(y1), Num(m1 - 1), Num(d1)).value <= MakeDay(Num(y), Num(m - 1), Num(d)).value
              && MakeDay(Num(y), Num(m - 1), Num(d)).value <= MakeDay(Num(y2), Num(m2 - 1), Num(d2)).value
  {
    SlotDayOfKey(d, m, y);
    SlotDayOfKey(d1, m1, y1);
    SlotDayOfKey(d2, m2, y2);
  }

  /** Which range test a booked-slots query runs: the string comparison the code performs, or
      the comparison of days its comment describes. */
  datatype RangeTest = AsWritten | Chronological

  /** The getUserBookedSlots query: the user's non-cancelled appointments and, when both
      bounds are given, a slot date within the range. */
  predicate InRangeQuery(a: Appointment, userId: string, startDate: string, endDate: string,
                         test: RangeTest)
  {
    a.userId == userId && !a.cancelled
    && (startDate != "" && endDate != "" ==>
          match test
          case AsWritten => InStringRange(a.slotDate, startDate, endDate)
          case Chronological => InDayRange(a.slotDate, startDate, endDate))
  }

  /** The times the query returns on one date, in the order of the collection. */
  function TimesOn(appts: seq<Appointment>, userId: string, startDate: string, endDate: string,
                   test: RangeTest, date: string): seq<string>
  {
    if |appts| == 0 then []
    else
      var a := appts[|appts| - 1];
      TimesOn(appts[..|appts| - 1], userId, startDate, endDate, test, date)
        + (if InRangeQuery(a, userId, startDate, endDate, test) && a.slotDate == date
           then [a.slotTime] else [])
  }

  /** A time is listed on a date exactly when a queried appointment has that date and time. */
  lemma {:induction false} TimesOnMembers(appts: seq<Appointment>, userId: string, startDate: string,
                                          endDate: string, test: RangeTest, date: string, time: string)
    ensures time in TimesOn(appts, userId, startDate, endDate, test, date) <==>
            exists k :: 0 <= k < |appts| && InRangeQuery(appts[k], userId, startDate, endDate, test)
                        && appts[k].slotDate == date && appts[k].slotTime == time
  {
    if |appts| > 0 {
      var init := appts[..|appts| - 1];
      TimesOnMembers(init, userId, startDate, endDate, test, date, time);
      assert forall k :: 0 <= k < |init| ==> init[k] == appts[k];
      if exists k :: 0 <= k < |appts| && InRangeQuery(appts[k], userId, startDate, endDate, test)
                     && appts[k].slotDate == date && appts[k].slotTime == time {
        var k :| 0 <= k < |appts| && InRangeQuery(appts[k], userId, startDate, endDate, test)
                 && appts[k].slotDate == date && appts[k].slotTime == time;
        if k < |init| {
          assert init[k] == appts[k];
        }
      }
    }
  }

  /** The next appointment adds its time to its own date's list only. */
  lemma TimesOnStep(appts: seq<Appointment>, i: nat, userId: string, startDate: string, endDate: string,
                    test: RangeTest)
    requires i < |appts|
    ensures forall date :: TimesOn(appts[..i + 1], userId, startDate, endDate, test, date)
              == TimesOn(appts[..i], userId, startDate, endDate, test, date)
                 + (if InRangeQuery(appts[i], userId, startDate, endDate, test) && appts[i].slotDate == date
                    then [appts[i].slotTime] else [])
  {
    assert appts[..i + 1][..i] == appts[..i];
  }

  /** The forEach that groups the queried appointments' times by date, under either range test. */
  method GroupBookedSlots(appts: seq<Appointment>, userId: string, startDate: string, endDate: string,
                          test: RangeTest)
    returns (booked: map<string, seq<string>>)
    ensures forall d :: d in booked <==> TimesOn(appts, userId, startDate, endDate, test, d) != []
    ensures forall d :: d in booked ==> booked[d] == TimesOn(appts, userId, startDate, endDate, test, d)
  {
    booked := map[];
    var i := 0;
    while i < |appts|
      invariant 0 <= i <= |appts|
      invariant forall d :: d in booked <==> TimesOn(appts[..i], userId, startDate, endDate, test, d) != []
      invariant forall d :: d in booked ==> booked[d] == TimesOn(appts[..i], userId, startDate, endDate, test, d)
    {
      var a := appts[i];
      TimesOnStep(appts, i, userId, startDate, endDate, test);
      if InRangeQuery(a, userId, startDate, endDate, test) {
        if a.slotDate !in booked {
          booked := booked[a.slotDate := []];
        }
        booked := booked[a.slotDate := booked[a.slotDate] + [a.slotTime]];
      }
      i := i + 1;
    }
    assert appts[..|appts|] == appts;
  }

  /** getUserBookedSlots as written: the range is the string comparison $gte/$lte. */
  method GetUserBookedSlots(appts: seq<Appointment>, userId: string, startDate: string, endDate: string)
    returns (booked: map<string, seq<string>>)
    ensures forall d :: d in booked <==> TimesOn(appts, userId, startDate, endDate, AsWritten, d) != []
    ensures forall d :: d in booked ==> booked[d] == TimesOn(appts, userId, startDate, endDate, AsWritten, d)
  {
    booked := GroupBookedSlots(appts, userId, startDate, endDate, AsWritten);
  }

  /** getUserBookedSlots with the range its comment intends: the days the keys name. */
  method GetUserBookedSlotsIntended(appts: seq<Appointment>, userId: string, startDate: string,
                                    endDate: string)
    returns (booked: map<string, seq<string>>)
    ensures forall d :: d in booked <==> TimesOn(appts, userId, startDate, endDate, Chronological, d) != []
    ensures forall d :: d in booked ==>
              booked[d] == TimesOn(appts, userId, startDate, endDate, Chronological, d)
  {
    booked := GroupBookedSlots(appts, userId, startDate, endDate, Chronological);
  }

  /** The two queries part on the example: a patient's 9 January 2026 slot is listed for the
      range 1..31 January 2026 by the intended query and left out by the query as written. */
  lemma BookedSlotQueriesDiffer(a: Appointment)
    requires a.slotDate == SlotKey(9, 1, 2026) && !a.cancelled
    ensures a.slotTime in TimesOn([a], a.userId, SlotKey(1, 1, 2026), SlotKey(31, 1, 2026),
                                  Chronological, a.slotDate)
    ensures TimesOn([a], a.userId, SlotKey(1, 1, 2026), SlotKey(31, 1, 2026), AsWritten, a.slotDate) == []
  {
    var lo, hi := SlotKey(1, 1, 2026), SlotKey(31, 1, 2026);
    assert lo != "" && hi != "" by {
      assert |lo| > 0 && |hi| > 0;
    }
    StringRangeMissesDate();
    assert [a][..0] == [];
    assert InRangeQuery(a, a.userId, lo, hi, Chronological);
    assert !InRangeQuery(a, a.userId, lo, hi, AsWritten);
  }

  /** The getUserDoctorBookedDates query: the user's non-cancelled appointments with a doctor. */
  predicate WithDoctor(a: Appointment, userId: string, docId: string) {
    a.userId == userId && a.docId == docId && !a.cancelled
  }

  /** The slot dates of the queried appointments, in order and with repetitions. */
  function DatesWith(appts: seq<Appointment>, userId: string, docId: string): (r: seq<string>)
    ensures forall d :: d in r <==> exists k :: 0 <= k < |appts| && WithDoctor(appts[k], userId, docId)
                                                && appts[k].slotDate == d
  {
    if |appts| == 0 then []
    else
      var init := appts[..|appts| - 1];
      var a := appts[|appts| - 1];
      var r := DatesWith(init, userId, docId) + (if WithDoctor(a, userId, docId) then [a.slotDate] else []);
      assert forall k :: 0 <= k < |init| ==> init[k] == appts[k];
      r
  }

  /** getUserDoctorBookedDates: '400 Doctor ID is required' (None) without a doctor id,
      otherwise the distinct booked dates in first-booking order. */
  function GetUserDoctorBookedDates(appts: seq<Appointment>, userId: string, docId: string)
    : (r: Option<seq<string>>)
    ensures r.None? <==> docId == ""
    ensures r.Some? ==> Distinct(r.value)
    ensures r.Some? ==> forall d :: d in r.value <==>
              exists k :: 0 <= k < |appts| && WithDoctor(appts[k], userId, docId) && appts[k].slotDate == d
  {
    if docId == "" then None else Some(Dedup(DatesWith(appts, userId, docId)))
  }
}
