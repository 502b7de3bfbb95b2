/** The day-off availability pass: doctors whose day off is today become unavailable, and
    doctors whose day off was yesterday become available again. */
module DayOff {
  import opened Collections
  import opened SlotLedger
  import opened Models
  import opened ClinicStore

  const DaysOfWeek: seq<string> :=
    ["Sunday", "Monday", "Tuesday", "Wednesday", "Thursday", "Friday", "Saturday"]

  /** The value of Date.prototype.getDay(): 0 is Sunday. */
  type Weekday = d: int | 0 <= d < 7

  function DayName(d: Weekday): string {
    DaysOfWeek[d]
  }

  /** The seven names are different and none is empty, so a day-off value names at most one day
      and is never the "no day off" value ''. */
  lemma DayNamesDistinct(x: Weekday, y: Weekday)
    ensures DayName(x) != ""
    ensures x != y ==> DayName(x) != DayName(y)
  {
  }

  /** (d - 1 + 7) % 7: the day before d, wrapping Sunday back to Saturday. */
  function YesterdayIndex(d: Weekday): (y: Weekday)
    ensures (y + 1) % 7 == d
    ensures d == 0 ==> y == 6
    ensures y != d
  {
    (d - 1 + 7) % 7
  }

  /** The first loop's update of one doctor: unavailable when the day off is today. */
  function AfterFirstLoop(doc: Doctor, today: Weekday): Doctor {
    if doc.dayOff == DayName(today) then doc.(available := false) else doc
  }

  /** The second query as written: { dayOff: { $ne: currentDayOfWeek, $ne: '' } } is an object
      literal with a repeated key, so only the last condition survives. */
  predicate SecondQuery(doc: Doctor, today: Weekday) {
    doc.dayOff != ""
  }

  /** The second loop's update of one doctor the second query returned: available when the day
      off was yesterday. */
  function AfterSecondLoop(doc: Doctor, today: Weekday): Doctor {
    if SecondQuery(doc, today) && doc.dayOff == DayName(YesterdayIndex(today))
    then doc.(available := true) else doc
  }

  /** The whole pass on one doctor. Only `available` can change; a day off of today makes the
      doctor unavailable, a day off of yesterday available, and any other value (including
      '' for none) leaves the doctor as it was. */
  function AfterPass(doc: Doctor, today: Weekday): (r: Doctor)
    ensures r.(available := doc.available) == doc
    ensures doc.dayOff == DayName(today) ==> !r.available
    ensures doc.dayOff == DayName(YesterdayIndex(today)) ==> r.available
    ensures doc.dayOff != DayName(today) && doc.dayOff != DayName(YesterdayIndex(today))
            ==> r == doc
  {
    DayNamesDistinct(today, YesterdayIndex(today));
    DayNamesDistinct(YesterdayIndex(today), today);
    AfterSecondLoop(AfterFirstLoop(doc, today), today)
  }

  /** The doctors collection after the pass. */
  function Pass(ds: seq<Doctor>, today: Weekday): (r: seq<Doctor>)
    ensures |r| == |ds|
    ensures forall i :: 0 <= i < |ds| ==> r[i] == AfterPass(ds[i], today)
  {
    seq(|ds|, i requires 0 <= i < |ds| => AfterPass(ds[i], today))
  }

  /** Running the pass twice on the same day gives the state of running it once. */
  lemma PassIdempotent(ds: seq<Doctor>, today: Weekday)
    ensures Pass(Pass(ds, today), today) == Pass(ds, today)
  {
    var once := Pass(ds, today);
    forall i | 0 <= i < |ds|
      ensures AfterPass(once[i], today) == once[i]
    {
      assert once[i].dayOff == ds[i].dayOff;
    }
  }

  /** The pass changes only availability, so the collection stays valid. */
  lemma PassKeepsValid(ds: seq<Doctor>, today: Weekday)
    requires DoctorsValid(ds)
    ensures DoctorsValid(Pass(ds, today))
  {
    var r := Pass(ds, today);
    assert forall i :: 0 <= i < |ds| ==> r[i].id == ds[i].id && r[i].email == ds[i].email
                                         && r[i].slotsBooked == ds[i].slotsBooked;
  }

  /** A doctor whose day off is d is unavailable after the pass on d and available again after
      the pass on the next day. */
  lemma DayOffThenNextDay(doc: Doctor, d: Weekday)
    requires doc.dayOff == DayName(d)
    ensures !AfterPass(doc, d).available
    ensures AfterPass(AfterPass(doc, d), (d + 1) % 7).available
  {
    var next: Weekday := (d + 1) % 7;
    assert YesterdayIndex(next) == d;
  }

  /** Availability is restored only on the day right after the day off: a doctor whose day off
      was two days ago keeps whatever availability it has. */
  lemma NoRestoreTwoDaysLater(doc: Doctor, d: Weekday)
    requires doc.dayOff == DayName(d) && !doc.available
    ensures !AfterPass(doc, (d + 2) % 7).available
  {
    var later: Weekday := (d + 2) % 7;
    DayNamesDistinct(d, later);
    DayNamesDistinct(d, YesterdayIndex(later));
  }

  /** The intended second query, as its comment describes it: a day off is set and it is not
      today. */
  predicate IntendedSecondQuery(doc: Doctor, today: Weekday) {
    doc.dayOff != DayName(today) && doc.dayOff != ""
  }

  /** The query as written also returns today's day-off doctors, which the intended one leaves
      out. */
  lemma SecondQueryIncludesToday(doc: Doctor, today: Weekday)
    requires doc.dayOff == DayName(today)
    ensures SecondQuery(doc, today) && !IntendedSecondQuery(doc, today)
  {
    DayNamesDistinct(today, today);
  }

  /** The second loop under the intended query. */
  function AfterIntendedSecondLoop(doc: Doctor, today: Weekday): Doctor {
    if IntendedSecondQuery(doc, today) && doc.dayOff == DayName(YesterdayIndex(today))
    then doc.(available := true) else doc
  }

  /** The loop's own test on yesterday makes the two queries update the same doctors. */
  lemma SecondLoopSameUnderEitherQuery(doc: Doctor, today: Weekday)
    ensures AfterSecondLoop(doc, today) == AfterIntendedSecondLoop(doc, today)
  {
    DayNamesDistinct(YesterdayIndex(today), today);
  }

  /** What the pass returns. */
  datatype PassReport = PassReport(success: bool, message: string)

  const PassMessage := "Doctor availability updated based on day off settings"

  /** updateDoctorAvailabilityBasedOnDayOff: each loop walks the collection in natural order
      and updates every doctor its query selects. */
  method UpdateDoctorAvailabilityBasedOnDayOff(db: Store, today: Weekday) returns (report: PassReport)
    requires db.Valid()
    modifies db
    ensures db.Valid()
    ensures db.doctors == Pass(old(db.doctors), today)
    ensures db.appointments == old(db.appointments) && db.users == old(db.users)
    ensures report == PassReport(true, PassMessage)
  {
    var start := db.doctors;
    var n := |db.doctors|;
    var currentDayOfWeek := DayName(today);
    for k := 0 to n
      invariant |db.doctors| == n
      invariant forall j :: 0 <= j < k ==> db.doctors[j] == AfterFirstLoop(start[j], today)
      invariant forall j :: k <= j < n ==> db.doctors[j] == start[j]
      invariant db.appointments == old(db.appointments) && db.users == old(db.users)
    {
      if db.doctors[k].dayOff == currentDayOfWeek {
        db.doctors := db.doctors[k := db.doctors[k].(available := false)];
      }
    }
    var middle := db.doctors;
    var yesterday := DayName(YesterdayIndex(today));
    for k := 0 to n
      invariant |db.doctors| == n
      invariant forall j :: 0 <= j < k ==> db.doctors[j] == AfterSecondLoop(middle[j], today)
      invariant forall j :: k <= j < n ==> db.doctors[j] == middle[j]
      invariant db.appointments == old(db.appointments) && db.users == old(db.users)
    {
      if SecondQuery(db.doctors[k], today) && db.doctors[k].dayOff == yesterday {
        db.doctors := db.doctors[k := db.doctors[k].(available := true)];
      }
    }
    assert db.doctors == Pass(start, today);
    PassKeepsValid(start, today);
    report := PassReport(true, PassMessage);
  }
}
