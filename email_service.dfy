/** The parts of the notification emails that depend on data: the rendered slot date, the
    patient and doctor name lines, the fallbacks for missing values, and the subject and text
    each status selects. Transport is outside the model; each mail is the record of the fields
    a message carries. */
module EmailService {
  import opened JsText
  import opened Calendar
  import opened Models

  const MonthNames: seq<string> :=
    ["January", "February", "March", "April", "May", "June",
     "July", "August", "September", "October", "November", "December"]

  /** `${v}` for the values the date template interpolates. */
  function NumText(v: JsNum): string {
    match v
    case Undefined => "undefined"
    case NaN => "NaN"
    case Num(n) => IntToString(n)
  }

  /** Element i of slotDate.split('_').map(parseInt), undefined past the end of the array. */
  function DatePart(parts: seq<string>, i: nat): (r: JsNum)
    ensures i >= |parts| <==> r == Undefined
  {
    if i < |parts| then ParseInt(parts[i]) else Undefined
  }

  /** `${monthNames[month - 1]}`: a month name for 1..12 and "undefined" for anything else. */
  function MonthText(month: JsNum): (r: string)
    ensures month.Num? && 1 <= month.n <= 12 ==> r == MonthNames[month.n - 1]
    ensures !(month.Num? && 1 <= month.n <= 12) ==> r == "undefined"
  {
    match month
    case Num(m) => if 1 <= m <= 12 then MonthNames[m - 1] else "undefined"
    case _ => "undefined"
  }

  /** The formattedDate of both appointment templates: "Month D, YYYY" from "d_m_yyyy". */
  function FormatSlotDate(slotDate: string): string {
    var parts := Split(slotDate, '_');
    MonthText(DatePart(parts, 1)) + " " + NumText(DatePart(parts, 0)) + ", "
      + NumText(DatePart(parts, 2))
  }

  /** A date key splits into its three rendered numbers, which parseInt reads back. */
  lemma SlotKeyParts(d: int, m: int, y: int)
    ensures var parts := Split(SlotKey(d, m, y), '_');
            DatePart(parts, 0) == Num(d) && DatePart(parts, 1) == Num(m)
            && DatePart(parts, 2) == Num(y)
  {
    SplitSlotKey(d, m, y);
    ParseIntRoundTrip(d);
    ParseIntRoundTrip(m);
    ParseIntRoundTrip(y);
  }

  /** A well-formed date key renders as the month's name, the day and the year. */
  lemma FormatSlotKey(d: int, m: int, y: int)
    requires 1 <= m <= 12
    ensures FormatSlotDate(SlotKey(d, m, y))
            == MonthNames[m - 1] + " " + IntToString(d) + ", " + IntToString(y)
  {
    SlotKeyParts(d, m, y);
  }

  /** A month outside 1..12 renders as "undefined". */
  lemma FormatBadMonth(d: int, m: int, y: int)
    requires !(1 <= m <= 12)
    ensures FormatSlotDate(SlotKey(d, m, y))
            == "undefined" + " " + IntToString(d) + ", " + IntToString(y)
  {
    SlotKeyParts(d, m, y);
  }

  /** An empty date key has no month and no year and a day that is not a number. */
  lemma FormatEmptyKey()
    ensures FormatSlotDate("") == "undefined NaN, undefined"
  {
    assert Split("", '_') == [""];
    assert ParseInt("") == NaN;
  }

  /** The patient line: `${firstName} ${middleName ? middleName + ' ' : ''}${lastName}`. */
  function PatientName(first: string, middle: string, last: string): string {
    first + " " + (if middle != "" then middle + " " else "") + last
  }

  /** With space-free name parts the line splits back into its parts: the middle name appears
      exactly when it is non-empty. */
  lemma PatientNameParts(first: string, middle: string, last: string)
    requires ' ' !in first && ' ' !in middle && ' ' !in last
    ensures middle != "" ==> Split(PatientName(first, middle, last), ' ') == [first, middle, last]
    ensures middle == "" ==> Split(PatientName(first, middle, last), ' ') == [first, last]
  {
    if middle != "" {
      var parts := [first, middle, last];
      assert Join(parts, ' ') == PatientName(first, middle, last) by {
        assert parts[..2][..1] == [first];
        assert Join(parts[..2], ' ') == first + " " + middle;
      }
      SplitJoin(parts, ' ');
    } else {
      var parts := [first, last];
      assert Join(parts, ' ') == PatientName(first, middle, last) by {
        assert parts[..1] == [first];
      }
      SplitJoin(parts, ' ');
    }
  }

  /** The doctor line: `${docData.name} ${docData.name_extension || ''}`. */
  function DoctorLine(name: string, extension: string): (r: string)
    ensures |r| == |name| + 1 + |extension| && r[..|name|] == name
    ensures r[|name|] == ' ' && r[|name| + 1..] == extension
  {
    name + " " + extension
  }

  /** `${middleName || 'N/A'}` of the new-registration alert. */
  function MiddleNameText(middle: string): (r: string)
    ensures middle != "" ==> r == middle
    ensures middle == "" ==> r == "N/A"
  {
    if middle != "" then middle else "N/A"
  }

  /** `${number || 'Not provided'}` of the feedback mail. */
  function PhoneText(number: string): (r: string)
    ensures number != "" ==> r == number
    ensures number == "" ==> r == "Not provided"
  {
    if number != "" then number else "Not provided"
  }

  /** docData.speciality.replace(/_/g, ' '): stored specialities use '_' for spaces. */
  function SpecialityText(speciality: string): (r: string)
    ensures |r| == |speciality| && '_' !in r
    ensures forall k :: 0 <= k < |speciality| && speciality[k] != '_' ==> r[k] == speciality[k]
    ensures forall k :: 0 <= k < |speciality| && speciality[k] == '_' ==> r[k] == ' '
  {
    ReplaceChar(speciality, '_', ' ')
  }

  /** The subject, status word and colour a status update mail shows. */
  datatype Presentation = Presentation(approved: bool, subject: string, statusText: string,
                                       color: string)

  /** Only 'completed' selects the approved variant; every other status, 'cancelled' and
      'summary_added' among them, selects the canceled one. */
  function StatusPresentation(status: string): (r: Presentation)
    ensures r.approved <==> status == "completed"
    ensures r.approved ==> r == Presentation(true, "Appointment Approved - Clinica Manila",
                                             "APPROVED", "#28a745")
    ensures !r.approved ==> r == Presentation(false, "Appointment Canceled - Clinica Manila",
                                              "CANCELED", "#dc3545")
  {
    if status == "completed"
    then Presentation(true, "Appointment Approved - Clinica Manila", "APPROVED", "#28a745")
    else Presentation(false, "Appointment Canceled - Clinica Manila", "CANCELED", "#dc3545")
  }

  /** The summary notification is sent with the canceled wording. */
  lemma SummaryAddedReadsCanceled()
    ensures StatusPresentation("summary_added") == StatusPresentation("cancelled")
    ensures !StatusPresentation("summary_added").approved
  {
  }

  /** The status update mail sendPatientAppointmentStatusNotification composes. */
  datatype PatientStatusMail = PatientStatusMail(to: string, subject: string, doctor: string,
                                                 speciality: string, date: string, time: string,
                                                 statusText: string, color: string)

  function PatientStatusNotification(to: string, a: Appointment, status: string): (m: PatientStatusMail)
    ensures m.to == to && m.time == a.slotTime && m.date == FormatSlotDate(a.slotDate)
    ensures m.subject == StatusPresentation(status).subject
    ensures m.statusText == StatusPresentation(status).statusText
  {
    var p := StatusPresentation(status);
    PatientStatusMail(to, p.subject, DoctorLine(a.docData.name, a.docData.nameExtension),
                      SpecialityText(a.docData.speciality), FormatSlotDate(a.slotDate),
                      a.slotTime, p.statusText, p.color)
  }

  /** The new-booking mail sendDoctorAppointmentNotification composes. */
  datatype DoctorBookingMail = DoctorBookingMail(to: string, subject: string, patient: string,
                                                 date: string, time: string)

  function DoctorAppointmentNotification(to: string, a: Appointment): (m: DoctorBookingMail)
    ensures m.to == to && m.time == a.slotTime && m.date == FormatSlotDate(a.slotDate)
    ensures m.patient == PatientName(a.userData.firstName, a.userData.middleName, a.userData.lastName)
  {
    DoctorBookingMail(to, "New Patient Appointment - Clinica Manila",
                      PatientName(a.userData.firstName, a.userData.middleName, a.userData.lastName),
                      FormatSlotDate(a.slotDate), a.slotTime)
  }

  /** The registration decision mail sendRegistrationEmail composes. */
  datatype RegistrationMail = RegistrationMail(to: string, subject: string, message: string)

  const ApprovedMessage := "Congratulations! Your registration has been APPROVED. You can now LOG IN to your account to access our website."
  const DeclinedMessage := "We regret to inform you that your registration has been DECLINED. Please contact Clinica Manila Support for more information."

  /** 'approved' selects the approval subject and message; any other status the update subject
      and the declined message. */
  function RegistrationEmail(to: string, status: string): (m: RegistrationMail)
    ensures m.to == to
    ensures status == "approved" ==> m.subject == "Registration Approved - Clinica Manila"
                                     && m.message == ApprovedMessage
    ensures status != "approved" ==> m.subject == "Registration Update - Clinica Manila"
                                     && m.message == DeclinedMessage
  {
    if status == "approved"
    then RegistrationMail(to, "Registration Approved - Clinica Manila", ApprovedMessage)
    else RegistrationMail(to, "Registration Update - Clinica Manila", DeclinedMessage)
  }

  /** The alert sendAdminNewRegistrationAlert sends to the clinic's own address. */
  datatype AdminAlertMail = AdminAlertMail(firstName: string, middleName: string, lastName: string)

  function AdminRegistrationAlert(first: string, middle: string, last: string): (m: AdminAlertMail)
    ensures m.firstName == first && m.lastName == last && m.middleName == MiddleNameText(middle)
  {
    AdminAlertMail(first, MiddleNameText(middle), last)
  }

  /** The reset mail sendPasswordResetEmail composes. */
  datatype PasswordResetMail = PasswordResetMail(to: string, resetUrl: string)
}
