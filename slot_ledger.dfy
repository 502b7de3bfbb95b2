/** A doctor's slot ledger (slots_booked): for each slot date key ("d_m_yyyy"), the list of
    slot times booked on that date. Booking appends to it; cancelling filters a time out. */
module SlotLedger {
  import opened Collections

  type Ledger = map<string, seq<string>>

  /** The slot (date, time) is recorded as booked. */
  predicate IsTaken(l: Ledger, date: string, time: string) {
    date in l && time in l[date]
  }

  /** No time is listed twice on one date. */
  predicate WellFormed(l: Ledger) {
    forall d :: d in l ==> Distinct(l[d])
  }

  /** The booking branch: the time is appended to the date's list, which is created empty first
      when the date has none. */
  function Reserve(l: Ledger, date: string, time: string): (r: Ledger)
    ensures IsTaken(r, date, time)
    ensures r.Keys == l.Keys + {date}
    ensures forall d :: d in l && d != date ==> r[d] == l[d]
    ensures date in l ==> r[date] == l[date] + [time]
    ensures date !in l ==> r[date] == [time]
  {
    l[date := (if date in l then l[date] else []) + [time]]
  }

  /** times.filter(e => e !== time). */
  function Without(times: seq<string>, time: string): (r: seq<string>)
    ensures forall t :: t in r <==> t in times && t != time
  {
    Filter(times, e => e != time)
  }

  /** The patient's cancellation: the date's list loses the time. The date must have a list;
      the source throws a TypeError when it has none, and the callers model that case. */
  function Release(l: Ledger, date: string, time: string): (r: Ledger)
    requires date in l
    ensures !IsTaken(r, date, time)
    ensures r.Keys == l.Keys
    ensures forall d :: d in l && d != date ==> r[d] == l[d]
    ensures forall t :: IsTaken(r, date, t) <==> IsTaken(l, date, t) && t != time
  {
    l[date := Without(l[date], time)]
  }

  /** The administrator's cancellation: the time is filtered out only when the date has a list;
      otherwise the ledger is left as it is. */
  function ReleaseIfPresent(l: Ledger, date: string, time: string): (r: Ledger)
    ensures !IsTaken(r, date, time)
    ensures r.Keys == l.Keys
    ensures date !in l ==> r == l
    ensures date in l ==> r == Release(l, date, time)
  {
    if date in l then Release(l, date, time) else l
  }

  /** Removing a time that is not in the list leaves the list unchanged. */
  lemma WithoutAbsent(times: seq<string>, time: string)
    requires time !in times
    ensures Without(times, time) == times
  {
    FilterKeepsAll(times, e => e != time);
  }

  /** A time appended to the list comes straight out again. */
  lemma WithoutAppended(times: seq<string>, time: string)
    ensures Without(times + [time], time) == Without(times, time)
  {
    assert (times + [time])[..|times|] == times;
  }

  /** Booking a free slot keeps the ledger free of duplicate times. */
  lemma ReserveKeepsWellFormed(l: Ledger, date: string, time: string)
    requires WellFormed(l) && !IsTaken(l, date, time)
    ensures WellFormed(Reserve(l, date, time))
  {
    var r := Reserve(l, date, time);
    var old_ := if date in l then l[date] else [];
    assert Distinct(old_);
    assert time !in old_;
    assert Distinct(r[date]) by {
      assert r[date] == old_ + [time];
    }
  }

  /** Cancelling keeps the ledger free of duplicate times. */
  lemma ReleaseKeepsWellFormed(l: Ledger, date: string, time: string)
    requires WellFormed(l) && date in l
    ensures WellFormed(Release(l, date, time))
  {
    FilterDistinct(l[date], e => e != time);
  }

  /** Booking a free slot and cancelling it again restores the ledger, except that a date which
      had no list before keeps an empty one. */
  lemma ReserveThenRelease(l: Ledger, date: string, time: string)
    requires !IsTaken(l, date, time)
    ensures Release(Reserve(l, date, time), date, time)
            == if date in l then l else l[date := []]
  {
    var before := if date in l then l[date] else [];
    assert Without(before + [time], time) == before by {
      WithoutAppended(before, time);
      WithoutAbsent(before, time);
    }
  }

  /** Cancelling a slot that is not booked on a listed date changes nothing. */
  lemma ReleaseUntakenIsNoop(l: Ledger, date: string, time: string)
    requires date in l && !IsTaken(l, date, time)
    ensures Release(l, date, time) == l
  {
    WithoutAbsent(l[date], time);
  }

  /** Cancelling twice is the same as cancelling once. */
  lemma ReleaseIdempotent(l: Ledger, date: string, time: string)
    requires date in l
    ensures Release(Release(l, date, time), date, time) == Release(l, date, time)
  {
    WithoutAbsent(Without(l[date], time), time);
  }
}
