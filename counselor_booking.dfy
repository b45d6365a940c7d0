/**
  * Booking a counselor (src/components/Student/CounselorBooking.tsx): the
  * half-hour slots of a day, the counselor filter, the specialization list,
  * and the student's appointments with booking, the deferred confirmation
  * and cancelling.
  *
  * The weekday of the chosen date, `Date.now()` and the creation timestamp
  * are supplied by the caller; the one-second confirmation delay becomes an
  * explicit step.
  */
module CounselorBooking {
  import opened Seqs
  import opened Text

  // ---------------------------------------------------------------------------
  // Time slots

  /** One day of a counselor's availability; a missing field is the empty string. */
  datatype DayHours = DayHours(start: string, end: string)

  /** `parseInt(time.split(':')[0])`: the hour of a time, None for NaN. */
  function HourOf(time: string): Option<int> {
    ParseInt(BeforeFirst(time, ':'))
  }

  /** The slot label `HH:00` or `HH:30` of an hour. */
  function Slot(hour: int, half: bool): string {
    Pad2(hour) + (if half then ":30" else ":00")
  }

  /** The slots from hour `start` up to, not including, hour `end`: two per hour, on the hour and at half past. */
  function HalfHourSlots(start: int, end: int): (slots: seq<string>)
    ensures |slots| == if end > start then 2 * (end - start) else 0
    ensures forall i :: 0 <= i < |slots| ==> slots[i] == Slot(start + i / 2, i % 2 == 1)
    decreases end - start
  {
    if end <= start then []
    else
      var front := HalfHourSlots(start, end - 1);
      NextHourSlots(front, start, end - 1);
      front + [Slot(end - 1, false), Slot(end - 1, true)]
  }

  /** Appending hour `h`'s two slots to the slots from `start` up to `h` gives the slots up to `h + 1`. */
  lemma NextHourSlots(front: seq<string>, start: int, h: int)
    requires start <= h && |front| == 2 * (h - start)
    requires forall i :: 0 <= i < |front| ==> front[i] == Slot(start + i / 2, i % 2 == 1)
    ensures var slots := front + [Slot(h, false), Slot(h, true)];
            forall i :: 0 <= i < |slots| ==> slots[i] == Slot(start + i / 2, i % 2 == 1)
  {
    var slots := front + [Slot(h, false), Slot(h, true)];
    var k := |front|;
    forall i | 0 <= i < |slots|
      ensures slots[i] == Slot(start + i / 2, i % 2 == 1)
    {
      if i == k {
        assert i / 2 == h - start && i % 2 == 0;
      } else if i == k + 1 {
        assert i / 2 == h - start && i % 2 == 1;
      }
    }
  }

  /**
    * The slots of a day (the weekday is an input): none when the day has no
    * entry or an empty start or end, none when an hour does not parse (a NaN
    * bound stops the loop at once), otherwise the half-hour slots between the
    * two hours, ignoring their minutes.
    */
  function SlotsFor(availability: map<string, DayHours>, day: string): (slots: seq<string>)
    ensures DayBounds(availability, day).None? ==> slots == []
    ensures DayBounds(availability, day).Some? ==>
              var (s, e) := DayBounds(availability, day).value;
              && |slots| == (if e > s then 2 * (e - s) else 0)
              && forall i :: 0 <= i < |slots| ==> slots[i] == Slot(s + i / 2, i % 2 == 1)
  {
    match DayBounds(availability, day)
    case None => []
    case Some((s, e)) => HalfHourSlots(s, e)
  }

  /** The start and end hours of a day, None when the day has no entry, a bound is empty or an hour is NaN. */
  function DayBounds(availability: map<string, DayHours>, day: string): Option<(int, int)> {
    if day !in availability || availability[day].start == "" || availability[day].end == "" then None
    else
      match (HourOf(availability[day].start), HourOf(availability[day].end))
      case (Some(s), Some(e)) => Some((s, e))
      case _ => None
  }

  /** `getAvailableTimeSlots`: the guards, then the loop over the hours. */
  method GetAvailableTimeSlots(availability: map<string, DayHours>, day: string) returns (slots: seq<string>)
    ensures slots == SlotsFor(availability, day)
  {
    if day !in availability || availability[day].start == "" || availability[day].end == "" {
      return [];
    }
    var start := HourOf(availability[day].start);
    var end := HourOf(availability[day].end);
    if start.None? || end.None? {
      return [];
    }
    slots := PushSlots(start.value, end.value);
  }

  /** The loop of `getAvailableTimeSlots`: pushes the two slots of each hour from `first` while below `last`. */
  method PushSlots(first: int, last: int) returns (slots: seq<string>)
    ensures slots == HalfHourSlots(first, last)
  {
    slots := [];
    var hour := first;
    while hour < last
      invariant first <= hour && (hour <= last || hour == first)
      invariant slots == HalfHourSlots(first, hour)
      decreases last - hour
    {
      ghost var before := slots;
      slots := slots + [Slot(hour, false)];
      slots := slots + [Slot(hour, true)];
      assert slots == before + [Slot(hour, false), Slot(hour, true)];
      hour := hour + 1;
    }
  }

  /** A slot is two hour digits, a colon, then `30` or `00`. */
  lemma SlotChars(h: int, half: bool)
    requires 0 <= h < 100
    ensures Slot(h, half) == [DigitChar(h / 10), DigitChar(h % 10), ':', if half then '3' else '0', '0']
  {
  }

  /** Zero-padded hours and the `:00` before `:30` order make later slots compare greater as strings. */
  lemma SlotLess(h1: int, half1: bool, h2: int, half2: bool)
    requires 0 <= h1 < 100 && 0 <= h2 < 100
    requires h1 < h2 || (h1 == h2 && !half1 && half2)
    ensures LexLess(Slot(h1, half1), Slot(h2, half2))
  {
    var a, b := Slot(h1, half1), Slot(h2, half2);
    SlotChars(h1, half1);
    SlotChars(h2, half2);
    if h1 / 10 < h2 / 10 {
      LexLessAt(a, b, 0);
    } else if h1 < h2 {
      assert h1 / 10 == h2 / 10 && h1 % 10 < h2 % 10;
      assert a[..1] == b[..1];
      LexLessAt(a, b, 1);
    } else {
      assert a[..3] == b[..3];
      LexLessAt(a, b, 3);
    }
  }

  /** Within one day's hours the slots are strictly increasing as strings. */
  lemma {:induction false} SlotsIncreasing(start: int, end: int)
    requires 0 <= start && end <= 100
    ensures var slots := HalfHourSlots(start, end);
            forall i, j :: 0 <= i < j < |slots| ==> LexLess(slots[i], slots[j])
  {
    var slots := HalfHourSlots(start, end);
    forall i, j | 0 <= i < j < |slots|
      ensures LexLess(slots[i], slots[j])
    {
      SlotPairLess(start, end, i, j);
    }
  }

  /** Two positions of one day's slot list compare as their order. */
  lemma {:induction false} SlotPairLess(start: int, end: int, i: int, j: int)
    requires 0 <= start && end <= 100
    requires 0 <= i < j < |HalfHourSlots(start, end)|
    ensures LexLess(HalfHourSlots(start, end)[i], HalfHourSlots(start, end)[j])
  {
    var slots := HalfHourSlots(start, end);
    var hi, hj := start + i / 2, start + j / 2;
    var bi, bj := i % 2 == 1, j % 2 == 1;
    HalfOrder(i, j, end - start);
    SlotLess(hi, bi, hj, bj);
    LessOfEquals(slots[i], slots[j], Slot(hi, bi), Slot(hj, bj));
  }

  /** Equal strings compare alike. */
  lemma {:induction false} LessOfEquals(a: string, b: string, c: string, d: string)
    requires a == c && b == d && LexLess(c, d)
    ensures LexLess(a, b)
  {
  }

  /** Of two positions in the slot list, the earlier one is in an earlier hour or is the same hour's first half. */
  lemma HalfOrder(i: int, j: int, hours: int)
    requires 0 <= i < j < 2 * hours
    ensures i / 2 < j / 2 || (i / 2 == j / 2 && i % 2 == 0 && j % 2 == 1)
    ensures 0 <= i / 2 && j / 2 < hours
  {
  }

  /** The hour of a zero-padded `HH:MM` time is `HH`, whatever the minutes. */
  lemma HourIgnoresMinutes(hour: int, minutes: string)
    requires 0 <= hour < 100
    ensures HourOf(Pad2(hour) + ":" + minutes) == Some(hour)
  {
    var p := Pad2(hour);
    assert ':' !in p;
    BeforeFirstOfPrefix(p, ':', minutes);
    ParsePad2(hour, []);
    assert p + [] == p;
  }

  /** Hours written as `HH:MM` give the slots between the two hours; the minutes of either bound do not count. */
  lemma SlotsFromTimes(availability: map<string, DayHours>, day: string, h1: int, m1: string, h2: int, m2: string)
    requires 0 <= h1 < 100 && 0 <= h2 < 100
    requires day in availability && availability[day] == DayHours(Pad2(h1) + ":" + m1, Pad2(h2) + ":" + m2)
    ensures SlotsFor(availability, day) == HalfHourSlots(h1, h2)
  {
    HourIgnoresMinutes(h1, m1);
    HourIgnoresMinutes(h2, m2);
  }

  // ---------------------------------------------------------------------------
  // Counselors

  datatype Counselor = Counselor(
    id: string,
    name: string,
    specialization: seq<string>,
    institutionId: Option<string>,
    status: string,
    availability: map<string, DayHours>)

  /** `counselor.institutionId` is truthy: present and non-empty. */
  predicate HasInstitution(c: Counselor) {
    c.institutionId.Some? && c.institutionId.value != ""
  }

  /** The name or some specialization contains the search term, ignoring case. */
  predicate MatchesSearch(c: Counselor, term: string) {
    Contains(Lower(c.name), Lower(term)) ||
    exists i :: 0 <= i < |c.specialization| && Contains(Lower(c.specialization[i]), Lower(term))
  }

  predicate MatchesSpecialization(c: Counselor, filter: string) {
    filter == "all" || filter in c.specialization
  }

  predicate MatchesInstitution(c: Counselor, filter: string) {
    filter == "all" || (filter == "institution" && HasInstitution(c)) || (filter == "independent" && !HasInstitution(c))
  }

  /** The four conditions of the filter callback. */
  predicate Listed(c: Counselor, term: string, specFilter: string, instFilter: string) {
    MatchesSearch(c, term) && MatchesSpecialization(c, specFilter) && MatchesInstitution(c, instFilter) && c.status == "approved"
  }

  /** `filteredCounselors`: the counselors that pass the filter, in their original order. */
  function FilteredCounselors(counselors: seq<Counselor>, term: string, specFilter: string, instFilter: string): (r: seq<Counselor>)
    ensures forall c :: c in r <==> c in counselors && Listed(c, term, specFilter, instFilter)
    ensures IsSubsequence(r, counselors)
  {
    Filter(counselors, c => Listed(c, term, specFilter, instFilter))
  }

  predicate Approved(c: Counselor) {
    c.status == "approved"
  }

  /** With an empty search and both filters at `all`, exactly the approved counselors are listed. */
  lemma UnfilteredListsApproved(counselors: seq<Counselor>)
    ensures FilteredCounselors(counselors, "", "all", "all") == Filter(counselors, Approved)
  {
    forall c | c in counselors
      ensures Listed(c, "", "all", "all") == Approved(c)
    {
      EmptyIsContained(Lower(c.name));
      assert Lower("") == "";
    }
    FilterCongruent(counselors, c => Listed(c, "", "all", "all"), Approved);
  }

  /** All specializations, counselor by counselor (`flatMap`). */
  function AllSpecializations(counselors: seq<Counselor>): (r: seq<string>)
    ensures forall s :: s in r <==> exists i :: 0 <= i < |counselors| && s in counselors[i].specialization
  {
    if counselors == [] then []
    else
      var rest := AllSpecializations(counselors[1..]);
      assert forall i :: 1 <= i < |counselors| ==> counselors[1..][i - 1] == counselors[i];
      counselors[0].specialization + rest
  }

  /** `availableSpecializations`: every specialization of some counselor, once, in order of first appearance. */
  function AvailableSpecializations(counselors: seq<Counselor>): (r: seq<string>)
    ensures NoDuplicates(r)
    ensures forall s :: s in r <==> exists i :: 0 <= i < |counselors| && s in counselors[i].specialization
  {
    Dedup(AllSpecializations(counselors))
  }

  // ---------------------------------------------------------------------------
  // Appointments

  datatype AppointmentType = Video | InPerson | Phone

  datatype Status = Pending | Confirmed | Completed | Cancelled

  datatype Appointment = Appointment(
    id: string,
    counselorId: string,
    counselorName: string,
    date: string,
    time: string,
    kind: AppointmentType,
    status: Status,
    createdAt: string)

  /** `prev.map(apt => apt.id === id ? {...apt, status} : apt)`. */
  function SetStatusById(apts: seq<Appointment>, id: string, status: Status): (r: seq<Appointment>)
    ensures |r| == |apts|
    ensures forall i :: 0 <= i < |apts| ==> r[i] == if apts[i].id == id then apts[i].(status := status) else apts[i]
  {
    if apts == [] then []
    else [if apts[0].id == id then apts[0].(status := status) else apts[0]] + SetStatusById(apts[1..], id, status)
  }

  /** The deferred confirmation as written: the appointment with the new id becomes confirmed, whatever its status. */
  function ConfirmAsWritten(apts: seq<Appointment>, id: string): (r: seq<Appointment>)
    ensures |r| == |apts|
    ensures forall i :: 0 <= i < |apts| && apts[i].id == id ==> r[i] == apts[i].(status := Confirmed)
    ensures forall i :: 0 <= i < |apts| && apts[i].id != id ==> r[i] == apts[i]
  {
    SetStatusById(apts, id, Confirmed)
  }

  /** Cancelling inside the confirmation delay is undone: a cancelled appointment ends up confirmed. */
  lemma CancelUndoneByConfirm(apts: seq<Appointment>, k: nat)
    requires k < |apts| && apts[k].status == Pending
    ensures var id := apts[k].id;
            SetStatusById(apts, id, Cancelled)[k].status == Cancelled &&
            ConfirmAsWritten(SetStatusById(apts, id, Cancelled), id)[k].status == Confirmed
  {
  }

  /** The confirmation corrected: only an appointment that is still pending becomes confirmed. */
  function ConfirmIfPending(apts: seq<Appointment>, id: string): (r: seq<Appointment>)
    ensures |r| == |apts|
    ensures forall i :: 0 <= i < |apts| ==>
              r[i] == if apts[i].id == id && apts[i].status == Pending then apts[i].(status := Confirmed) else apts[i]
  {
    if apts == [] then []
    else
      [if apts[0].id == id && apts[0].status == Pending then apts[0].(status := Confirmed) else apts[0]] +
      ConfirmIfPending(apts[1..], id)
  }

  /** With the correction a cancellation stands, and an untouched booking is still confirmed. */
  lemma {:induction false} CancelSurvivesConfirm(apts: seq<Appointment>, k: nat)
    requires k < |apts| && apts[k].status == Pending
    ensures var id := apts[k].id;
            ConfirmIfPending(SetStatusById(apts, id, Cancelled), id)[k].status == Cancelled &&
            ConfirmIfPending(apts, id)[k].status == Confirmed
  {
  }

  /** The student's booking page. `toConfirm` holds the ids whose confirmation delay is running, oldest first. */
  class Booking {
    var appointments: seq<Appointment>
    var selectedCounselor: Option<Counselor>
    var showBookingModal: bool
    var selectedDate: string
    var selectedTime: string
    var selectedType: AppointmentType
    var toConfirm: seq<string>

    constructor()
      ensures appointments == [] && selectedCounselor.None? && !showBookingModal
      ensures selectedDate == "" && selectedTime == "" && selectedType == Video && toConfirm == []
    {
      appointments := [];
      selectedCounselor := None;
      showBookingModal := false;
      selectedDate := "";
      selectedTime := "";
      selectedType := Video;
      toConfirm := [];
    }

    /** "Book Session" on a counselor's card: selects the counselor and opens the form. */
    method OpenBooking(c: Counselor)
      modifies this
      ensures selectedCounselor == Some(c) && showBookingModal
      ensures appointments == old(appointments) && toConfirm == old(toConfirm)
      ensures selectedDate == old(selectedDate) && selectedTime == old(selectedTime) && selectedType == old(selectedType)
    {
      selectedCounselor := Some(c);
      showBookingModal := true;
    }

    /** The form's date, time and type inputs. */
    method ChooseSlot(date: string, time: string, kind: AppointmentType)
      modifies this
      ensures selectedDate == date && selectedTime == time && selectedType == kind
      ensures appointments == old(appointments) && toConfirm == old(toConfirm)
      ensures selectedCounselor == old(selectedCounselor) && showBookingModal == old(showBookingModal)
    {
      selectedDate := date;
      selectedTime := time;
      selectedType := kind;
    }

    /**
      * `handleBooking`: without a counselor, date and time nothing happens;
      * otherwise one pending appointment with id `now` is appended, the form
      * closes, the counselor, date and time are cleared (the type is kept)
      * and the confirmation delay starts.
      */
    method Book(now: nat, createdAt: string)
      modifies this
      ensures old(selectedCounselor).None? || old(selectedDate) == "" || old(selectedTime) == "" ==>
                && appointments == old(appointments) && toConfirm == old(toConfirm)
                && selectedCounselor == old(selectedCounselor) && showBookingModal == old(showBookingModal)
                && selectedDate == old(selectedDate) && selectedTime == old(selectedTime)
      ensures old(selectedCounselor).Some? && old(selectedDate) != "" && old(selectedTime) != "" ==>
                && appointments == old(appointments) + [Appointment(
                     NatToString(now), old(selectedCounselor).value.id, old(selectedCounselor).value.name,
                     old(selectedDate), old(selectedTime), old(selectedType), Pending, createdAt)]
                && toConfirm == old(toConfirm) + [NatToString(now)]
                && !showBookingModal && selectedCounselor.None? && selectedDate == "" && selectedTime == ""
      ensures selectedType == old(selectedType)
    {
      if selectedCounselor.None? || selectedDate == "" || selectedTime == "" {
        return;
      }
      var c := selectedCounselor.value;
      var id := NatToString(now);
      appointments := appointments + [Appointment(id, c.id, c.name, selectedDate, selectedTime, selectedType, Pending, createdAt)];
      showBookingModal := false;
      selectedCounselor := None;
      selectedDate := "";
      selectedTime := "";
      toConfirm := toConfirm + [id];
    }

    /** The oldest confirmation delay ends: with the correction, only a still-pending appointment is confirmed. */
    method ConfirmDeferred()
      requires toConfirm != []
      modifies this
      ensures appointments == ConfirmIfPending(old(appointments), old(toConfirm[0]))
      ensures toConfirm == old(toConfirm[1..])
      ensures selectedCounselor == old(selectedCounselor) && showBookingModal == old(showBookingModal)
      ensures selectedDate == old(selectedDate) && selectedTime == old(selectedTime) && selectedType == old(selectedType)
    {
      appointments := ConfirmIfPending(appointments, toConfirm[0]);
      toConfirm := toConfirm[1..];
    }

    /** The oldest confirmation delay ends as the code writes it: the appointment is confirmed whatever its status. */
    method ConfirmDeferredAsWritten()
      requires toConfirm != []
      modifies this
      ensures appointments == ConfirmAsWritten(old(appointments), old(toConfirm[0]))
      ensures toConfirm == old(toConfirm[1..])
      ensures selectedCounselor == old(selectedCounselor) && showBookingModal == old(showBookingModal)
      ensures selectedDate == old(selectedDate) && selectedTime == old(selectedTime) && selectedType == old(selectedType)
    {
      appointments := ConfirmAsWritten(appointments, toConfirm[0]);
      toConfirm := toConfirm[1..];
    }

    /** `handleCancelAppointment`: the appointment with that id is cancelled; nothing else changes. */
    method CancelAppointment(id: string)
      modifies this
      ensures appointments == SetStatusById(old(appointments), id, Cancelled)
      ensures toConfirm == old(toConfirm)
      ensures selectedCounselor == old(selectedCounselor) && showBookingModal == old(showBookingModal)
      ensures selectedDate == old(selectedDate) && selectedTime == old(selectedTime) && selectedType == old(selectedType)
    {
      appointments := SetStatusById(appointments, id, Cancelled);
    }
  }

  /**
    * A session booked and then cancelled before its confirmation delay ends:
    * as written it ends up confirmed; corrected, it stays cancelled.
    */
  method CancelInsideDelay(c: Counselor, now: nat) returns (asWritten: Status, corrected: Status)
    ensures asWritten == Confirmed && corrected == Cancelled
  {
    var a := new Booking();
    var b := new Booking();
    BookAndCancel(a, c, now);
    BookAndCancel(b, c, now);
    a.ConfirmDeferredAsWritten();
    b.ConfirmDeferred();
    asWritten := a.appointments[0].status;
    corrected := b.appointments[0].status;
  }

  /** Books one session with `c` on a fresh page and cancels it at once. */
  method BookAndCancel(booking: Booking, c: Counselor, now: nat)
    requires booking.appointments == [] && booking.toConfirm == []
    modifies booking
    ensures |booking.appointments| == 1 && booking.appointments[0].status == Cancelled
    ensures booking.toConfirm == [booking.appointments[0].id]
  {
    booking.OpenBooking(c);
    booking.ChooseSlot("2024-01-15", "10:00", Video);
    booking.Book(now, "");
    booking.CancelAppointment(NatToString(now));
  }

  /** The Cancel button appears only on pending appointments. */
  predicate CancelOffered(a: Appointment) {
    a.status == Pending
  }

  /** Cancelling an appointment, or its confirmation delay ending, withdraws its Cancel button. */
  lemma {:induction false} CancelWithdrawn(apts: seq<Appointment>, k: nat)
    requires k < |apts|
    ensures !CancelOffered(SetStatusById(apts, apts[k].id, Cancelled)[k])
    ensures !CancelOffered(ConfirmIfPending(apts, apts[k].id)[k])
    ensures !CancelOffered(ConfirmAsWritten(apts, apts[k].id)[k])
  {
    var a := apts[k];
    assert SetStatusById(apts, a.id, Cancelled)[k] == a.(status := Cancelled);
    assert ConfirmAsWritten(apts, a.id)[k] == a.(status := Confirmed);
    var c := ConfirmIfPending(apts, a.id)[k];
    assert c == if a.status == Pending then a.(status := Confirmed) else a;
  }
}
